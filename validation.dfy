/** The central validator and the check test, which call each other: a move is
    valid only if no step of it leaves the mover in check, and a colour is in
    check when an enemy piece has a valid move onto one of its essential
    pieces. Speculative boards are values, so the input board never changes. */
module Validation {
  import opened Chess
  import opened Pieces

  // ------------------------------------------------- essential-piece count

  function Weight(x: Option<Piece>): nat {
    if x.Some? && Essential(x.value) then 1 else 0
  }

  /** The essential pieces in one rank. */
  function CountRow(row: seq<Option<Piece>>): nat {
    if row == [] then 0 else CountRow(row[..|row| - 1]) + Weight(row[|row| - 1])
  }

  lemma {:induction false} CountRowUpdate(row: seq<Option<Piece>>, i: int, x: Option<Piece>)
    requires 0 <= i < |row|
    ensures CountRow(row[i := x]) == CountRow(row) - Weight(row[i]) + Weight(x)
  {
    var n := |row|;
    var u := row[i := x];
    if i < n - 1 {
      assert u[..n - 1] == row[..n - 1][i := x];
      CountRowUpdate(row[..n - 1], i, x);
    } else {
      assert u[..n - 1] == row[..n - 1];
    }
  }

  /** The essential pieces in a sequence of ranks. */
  function CountRows(rows: seq<seq<Option<Piece>>>): nat {
    if rows == [] then 0 else CountRows(rows[..|rows| - 1]) + CountRow(rows[|rows| - 1])
  }

  lemma {:induction false} CountRowsUpdate(rows: seq<seq<Option<Piece>>>, i: int, row: seq<Option<Piece>>)
    requires 0 <= i < |rows|
    ensures CountRows(rows[i := row]) == CountRows(rows) - CountRow(rows[i]) + CountRow(row)
  {
    var n := |rows|;
    var u := rows[i := row];
    if i < n - 1 {
      assert u[..n - 1] == rows[..n - 1][i := row];
      CountRowsUpdate(rows[..n - 1], i, row);
    } else {
      assert u[..n - 1] == rows[..n - 1];
    }
  }

  /** Writing one square changes the count by the weights of the old and the
      new contents. */
  lemma SetEssentials(b: Board, p: Pos, x: Option<Piece>)
    requires b.Wf() && InBoard(p)
    ensures Essentials(b.Set(p, x)) == Essentials(b) - Weight(b.At(p)) + Weight(x)
  {
    CountRowUpdate(b.rows[p.rank], p.file, x);
    CountRowsUpdate(b.rows, p.rank, b.rows[p.rank][p.file := x]);
  }

  /** The number of essential pieces on the board: the termination measure of
      the validator / check-test recursion. */
  function Essentials(b: Board): nat {
    CountRows(b.rows)
  }

  predicate EssentialAt(b: Board, p: Pos)
    requires b.Wf() && InBoard(p)
  {
    b.At(p).Some? && Essential(b.At(p).value)
  }

  // ------------------------------------------------- speculative relocation

  /** One relocation on a copy, `tmp[to] = exchange(tmp[from], {})`: the source
      cell is emptied first, then its former content lands on the target, so a
      zero-length relocation changes nothing. */
  function Relocate(b: Board, s: Move): (r: Board)
    requires b.Wf() && MoveInBoard(s)
    ensures r.Wf() && r.lastMove == b.lastMove
    ensures r.At(s.to) == b.At(s.from)
    ensures s.from != s.to ==> r.At(s.from).None?
    ensures forall q :: InBoard(q) && q != s.from && q != s.to ==> r.At(q) == b.At(q)
  {
    b.Set(s.from, None).Set(s.to, b.At(s.from))
  }

  /** A relocation never adds an essential piece, and removes one exactly when
      it lands on an essential piece from another square. */
  lemma RelocateEssentials(b: Board, s: Move)
    requires b.Wf() && MoveInBoard(s)
    ensures Essentials(Relocate(b, s)) == Essentials(b) - (if s.from != s.to then Weight(b.At(s.to)) else 0)
  {
    var b1 := b.Set(s.from, None);
    SetEssentials(b, s.from, None);
    SetEssentials(b1, s.to, b.At(s.from));
    if s.from != s.to {
      assert b1.At(s.to) == b.At(s.to);
    }
  }

  /** The relocations applied in order to a copy of the board. */
  function Apply(b: Board, steps: seq<Move>): (r: Board)
    requires b.Wf() && StepsInBoard(steps)
    ensures r.Wf() && r.lastMove == b.lastMove
    decreases |steps|
  {
    if steps == [] then b
    else Relocate(Apply(b, steps[..|steps| - 1]), steps[|steps| - 1])
  }

  lemma {:induction false} ApplyEssentials(b: Board, steps: seq<Move>)
    requires b.Wf() && StepsInBoard(steps)
    ensures Essentials(Apply(b, steps)) <= Essentials(b)
    ensures |steps| >= 1 && steps[0].from != steps[0].to && EssentialAt(b, steps[0].to)
      ==> Essentials(Apply(b, steps)) < Essentials(b)
    decreases |steps|
  {
    if steps != [] {
      var init := steps[..|steps| - 1];
      ApplyEssentials(b, init);
      RelocateEssentials(Apply(b, init), steps[|steps| - 1]);
      if |steps| == 1 {
        assert Apply(b, init) == b;
      }
    }
  }

  /** The bounds the recursion needs, for every non-empty prefix at once. */
  lemma PrefixEssentials(b: Board, steps: seq<Move>)
    requires b.Wf() && StepsInBoard(steps)
    ensures forall k :: 1 <= k <= |steps| ==> StepsInBoard(steps[..k])
    ensures forall k :: 1 <= k <= |steps| ==> Essentials(Apply(b, steps[..k])) <= Essentials(b)
    ensures |steps| >= 1 && steps[0].from != steps[0].to && EssentialAt(b, steps[0].to) ==>
      forall k :: 1 <= k <= |steps| ==> Essentials(Apply(b, steps[..k])) < Essentials(b)
  {
    forall k | 1 <= k <= |steps|
      ensures StepsInBoard(steps[..k])
      ensures Essentials(Apply(b, steps[..k])) <= Essentials(b)
      ensures steps[0].from != steps[0].to && EssentialAt(b, steps[0].to) ==>
        Essentials(Apply(b, steps[..k])) < Essentials(b)
    {
      assert StepsInBoard(steps[..k]);
      ApplyEssentials(b, steps[..k]);
      assert steps[..k][0] == steps[0];
    }
  }

  // ------------------------------------------------------ validator / check

  /** `chesspiece::is_valid_move`: piece `pc` moving on `b` by `m`. */
  function Validate(b: Board, pc: Piece, m: Move): (r: MoveValidResult)
    requires b.Wf() && MoveInBoard(m)
    ensures r.Wf()
    ensures m.from == m.to ==> r == Invalid
    ensures b.At(m.to).Some? && b.At(m.to).value.color == pc.color ==> r == Invalid
    ensures !Geometry(b, pc, m).Truthy() ==> r == Invalid
    ensures r.Truthy() ==> r == Geometry(b, pc, m)
    decreases Essentials(b), if EssentialAt(b, m.to) then 0 else 3
  {
    if m.from == m.to then Invalid
    else if b.At(m.to).Some? && b.At(m.to).value.color == pc.color then Invalid
    else
      var result := Geometry(b, pc, m);
      if !result.Truthy() then Invalid
      else
        var steps := result.ValueOr(m);
        PrefixEssentials(b, steps);
        if exists k :: 1 <= k <= |steps| && InCheck(Apply(b, steps[..k]), pc.color) then Invalid
        else result
  }

  /** The piece on square `a` is not of colour `c` and can validly move onto
      the essential piece on square `e`. */
  predicate EnemyReaches(b: Board, c: Color, e: Pos, a: Pos)
    requires b.Wf() && InBoard(e) && InBoard(a) && EssentialAt(b, e)
    ensures EnemyReaches(b, c, e, a) ==>
      && a != e && b.At(a).Some? && b.At(a).value.color == Opposite(c)
      && Geometry(b, b.At(a).value, Move(a, e)).Truthy()
    decreases Essentials(b), 1
  {
    b.At(a).Some? && b.At(a).value.color != c
    && Validate(b, b.At(a).value, Move(a, e)).Truthy()
  }

  /** `chessboard::test_in_check`: some essential piece of `c` stands on a
      square that some piece of the other colour can validly move to. */
  predicate InCheck(b: Board, c: Color)
    requires b.Wf()
    ensures InCheck(b, c) ==> !Absent(b, c, {King}) && !Absent(b, Opposite(c), AllKinds)
    decreases Essentials(b), 2
  {
    exists er, ef, ar, af {:trigger EnemyReaches(b, c, Pos(er, ef), Pos(ar, af))}
      | 0 <= er < 8 && 0 <= ef < 8 && 0 <= ar < 8 && 0 <= af < 8 ::
      EssentialAt(b, Pos(er, ef)) && b.At(Pos(er, ef)).value.color == c && EnemyReaches(b, c, Pos(er, ef), Pos(ar, af))
  }

  /** None of the first n prefixes of the relocations leaves `c` in check. */
  predicate SafeUpTo(b: Board, steps: seq<Move>, c: Color, n: int)
    requires b.Wf() && StepsInBoard(steps) && 0 <= n <= |steps|
  {
    forall k :: 1 <= k <= n ==> !InCheck(Apply(b, steps[..k]), c)
  }

  /** No non-empty prefix of the relocations leaves colour `c` in check. */
  predicate SafeAfterEachStep(b: Board, steps: seq<Move>, c: Color)
    requires b.Wf() && StepsInBoard(steps)
  {
    SafeUpTo(b, steps, c, |steps|)
  }

  lemma SafeUpToNext(b: Board, steps: seq<Move>, c: Color, n: int)
    requires b.Wf() && StepsInBoard(steps) && 0 <= n < |steps|
    ensures StepsInBoard(steps[..n + 1])
    ensures SafeUpTo(b, steps, c, n + 1) <==> SafeUpTo(b, steps, c, n) && !InCheck(Apply(b, steps[..n + 1]), c)
  {
  }

  lemma ApplyNext(b: Board, steps: seq<Move>, i: int)
    requires b.Wf() && StepsInBoard(steps) && 0 <= i < |steps|
    ensures StepsInBoard(steps[..i]) && StepsInBoard(steps[..i + 1])
    ensures Apply(b, steps[..i + 1]) == Relocate(Apply(b, steps[..i]), steps[i])
  {
    assert steps[..i + 1][..i] == steps[..i];
  }

  /** The validator accepts exactly when the move is not null, does not land
      on the mover's own colour, passes the geometry rule, and no step of the
      resulting relocations leaves the mover in check; it then returns the
      geometry result unchanged. */
  lemma ValidateCharacterization(b: Board, pc: Piece, m: Move)
    requires b.Wf() && MoveInBoard(m)
    ensures Validate(b, pc, m) ==
      if m.from == m.to then Invalid
      else if b.At(m.to).Some? && b.At(m.to).value.color == pc.color then Invalid
      else if !Geometry(b, pc, m).Truthy() then Invalid
      else if !SafeAfterEachStep(b, Geometry(b, pc, m).ValueOr(m), pc.color) then Invalid
      else Geometry(b, pc, m)
  {
  }

  /** In particular the full relocation list of a valid move does not leave
      the mover in check. */
  lemma {:induction false} ValidLeavesNoCheck(b: Board, pc: Piece, m: Move)
    requires b.Wf() && MoveInBoard(m) && Validate(b, pc, m).Truthy()
    ensures StepsInBoard(Validate(b, pc, m).ValueOr(m))
    ensures !InCheck(Apply(b, Validate(b, pc, m).ValueOr(m)), pc.color)
  {
    var steps := Validate(b, pc, m).ValueOr(m);
    ValidateCharacterization(b, pc, m);
    assert steps[..|steps|] == steps;
  }

  /** The zero-length first relocation of a castling list makes the validator
      test the unchanged position, so a king in check cannot castle. */
  lemma {:induction false} NoCastlingOutOfCheck(b: Board, pc: Piece, m: Move)
    requires b.Wf() && MoveInBoard(m) && pc.kind == King
    requires InCheck(b, pc.color)
    requires Geometry(b, pc, m).Relocations?
    ensures !Validate(b, pc, m).Truthy()
  {
    ValidateCharacterization(b, pc, m);
    var steps := Geometry(b, pc, m).moves;
    assert steps[0] == Move(m.from, m.from);
    assert steps[..1][..0] == [];
    assert Apply(b, steps[..1]) == Relocate(b, steps[0]);
    BoardsEqual(Relocate(b, steps[0]), b);
    assert !SafeAfterEachStep(b, steps, pc.color);
  }

  /** The zero-length probe leaves the board as it is. */
  lemma ProbeUnchanged(b: Board, p: Pos)
    requires b.Wf() && InBoard(p)
    ensures Relocate(b, Move(p, p)) == b
  {
    BoardsEqual(Relocate(b, Move(p, p)), b);
  }

  /** Each non-empty prefix of a relocation list is the previous one plus one
      relocation. */
  lemma {:induction false} PrefixChain(b: Board, steps: seq<Move>)
    requires b.Wf() && StepsInBoard(steps) && |steps| >= 1
    ensures forall k :: 1 <= k <= |steps| ==> StepsInBoard(steps[..k])
    ensures Apply(b, steps[..1]) == Relocate(b, steps[0])
    ensures forall k :: 1 <= k < |steps| ==> Apply(b, steps[..k + 1]) == Relocate(Apply(b, steps[..k]), steps[k])
  {
    forall k | 1 <= k < |steps|
      ensures Apply(b, steps[..k + 1]) == Relocate(Apply(b, steps[..k]), steps[k])
    {
      ApplyNext(b, steps, k);
    }
    ApplyNext(b, steps, 0);
    assert steps[..0] == [];
  }

  /** The copies short castling's check loop tests: the position itself,
      the king on F, the king on G, and the rook then on F. */
  lemma {:induction false} ShortCastlingPrefixes(b: Board, from: Pos, c: Color)
    requires b.Wf() && InBoard(from)
    ensures var steps, home := ShortCastling(from, c), HomeRank(c);
      var b1 := Relocate(b, Move(from, Pos(home, 5)));
      var b2 := Relocate(b1, Move(Pos(home, 5), Pos(home, 6)));
      var b3 := Relocate(b2, Move(Pos(home, 7), Pos(home, 5)));
      && StepsInBoard(steps) && |steps| == 4
      && (forall k :: 1 <= k <= 4 ==> StepsInBoard(steps[..k]))
      && Apply(b, steps[..1]) == b && Apply(b, steps[..2]) == b1
      && Apply(b, steps[..3]) == b2 && Apply(b, steps[..4]) == b3
  {
    var steps := ShortCastling(from, c);
    PrefixChain(b, steps);
    ProbeUnchanged(b, from);
  }

  /** Short castling, once its geometry is offered, is valid exactly when the
      king is not in check where it stands, nor moved alone to F, nor moved
      on to G, nor with the rook moved from H to F: castling out of, through
      or into check is refused. */
  lemma {:induction false} ShortCastlingChecks(b: Board, pc: Piece, m: Move)
    requires b.Wf() && MoveInBoard(m) && m.from != m.to && pc.kind == King
    requires Geometry(b, pc, m) == Relocations(ShortCastling(m.from, pc.color))
    ensures var home := HomeRank(pc.color);
      var b1 := Relocate(b, Move(m.from, Pos(home, 5)));
      var b2 := Relocate(b1, Move(Pos(home, 5), Pos(home, 6)));
      var b3 := Relocate(b2, Move(Pos(home, 7), Pos(home, 5)));
      Validate(b, pc, m).Truthy() <==>
        !InCheck(b, pc.color) && !InCheck(b1, pc.color) && !InCheck(b2, pc.color) && !InCheck(b3, pc.color)
  {
    var c := pc.color;
    var steps := ShortCastling(m.from, c);
    ValidateCharacterization(b, pc, m);
    ShortCastlingPrefixes(b, m.from, c);
    if SafeAfterEachStep(b, steps, c) {
      assert !InCheck(Apply(b, steps[..1]), c) && !InCheck(Apply(b, steps[..2]), c);
      assert !InCheck(Apply(b, steps[..3]), c) && !InCheck(Apply(b, steps[..4]), c);
    } else {
      var k :| 1 <= k <= 4 && InCheck(Apply(b, steps[..k]), c);
      assert k == 1 || k == 2 || k == 3 || k == 4;
    }
  }

  /** The first copies long castling's check loop tests: the position
      itself, the king on D and the king on C. */
  lemma {:induction false} LongCastlingPrefixes(b: Board, from: Pos, c: Color)
    requires b.Wf() && InBoard(from)
    ensures var steps, home := LongCastling(from, c), HomeRank(c);
      var b1 := Relocate(b, Move(from, Pos(home, 3)));
      var b2 := Relocate(b1, Move(Pos(home, 3), Pos(home, 2)));
      && StepsInBoard(steps) && |steps| == 5
      && (forall k :: 1 <= k <= 5 ==> StepsInBoard(steps[..k]))
      && Apply(b, steps[..1]) == b && Apply(b, steps[..2]) == b1 && Apply(b, steps[..3]) == b2
  {
    var steps := LongCastling(from, c);
    PrefixChain(b, steps);
    ProbeUnchanged(b, from);
  }

  /** The last copies long castling's check loop tests: the king on B, and
      the rook then on D. */
  lemma {:induction false} LongCastlingLastPrefixes(b: Board, from: Pos, c: Color)
    requires b.Wf() && InBoard(from)
    ensures var steps, home := LongCastling(from, c), HomeRank(c);
      var b2 := Relocate(Relocate(b, Move(from, Pos(home, 3))), Move(Pos(home, 3), Pos(home, 2)));
      var b3 := Relocate(b2, Move(Pos(home, 2), Pos(home, 1)));
      var b4 := Relocate(b3, Move(Pos(home, 0), Pos(home, 3)));
      && StepsInBoard(steps) && StepsInBoard(steps[..4]) && StepsInBoard(steps[..5])
      && Apply(b, steps[..4]) == b3 && Apply(b, steps[..5]) == b4
  {
    var steps := LongCastling(from, c);
    LongCastlingPrefixes(b, from, c);
    ApplyNext(b, steps, 3);
    ApplyNext(b, steps, 4);
  }

  /** Long castling as listed, once its geometry is offered, is valid exactly
      when the king is not in check where it stands, nor moved alone to D,
      then C, then B, nor with the rook moved from A to D. */
  lemma {:induction false} LongCastlingChecks(b: Board, pc: Piece, m: Move)
    requires b.Wf() && MoveInBoard(m) && m.from != m.to && pc.kind == King
    requires Geometry(b, pc, m) == Relocations(LongCastling(m.from, pc.color))
    ensures var home := HomeRank(pc.color);
      var b1 := Relocate(b, Move(m.from, Pos(home, 3)));
      var b2 := Relocate(b1, Move(Pos(home, 3), Pos(home, 2)));
      var b3 := Relocate(b2, Move(Pos(home, 2), Pos(home, 1)));
      var b4 := Relocate(b3, Move(Pos(home, 0), Pos(home, 3)));
      Validate(b, pc, m).Truthy() <==>
        !InCheck(b, pc.color) && !InCheck(b1, pc.color) && !InCheck(b2, pc.color) && !InCheck(b3, pc.color)
        && !InCheck(b4, pc.color)
  {
    var c := pc.color;
    var steps := LongCastling(m.from, c);
    ValidateCharacterization(b, pc, m);
    LongCastlingPrefixes(b, m.from, c);
    LongCastlingLastPrefixes(b, m.from, c);
    if SafeAfterEachStep(b, steps, c) {
      assert !InCheck(Apply(b, steps[..1]), c) && !InCheck(Apply(b, steps[..2]), c);
      assert !InCheck(Apply(b, steps[..3]), c) && !InCheck(Apply(b, steps[..4]), c);
      assert !InCheck(Apply(b, steps[..5]), c);
    } else {
      var k :| 1 <= k <= 5 && InCheck(Apply(b, steps[..k]), c);
      assert k == 1 || k == 2 || k == 3 || k == 4 || k == 5;
    }
  }

  // ------------------------------------------------- boards without check

  const AllKinds: set<Kind> := {Pawn, Rook, Knight, Bishop, Queen, King}

  /** No piece of colour c whose kind is in `kinds` stands on the board. */
  ghost predicate Absent(b: Board, c: Color, kinds: set<Kind>)
    requires b.Wf()
  {
    forall q :: InBoard(q) && b.At(q).Some? && b.At(q).value.color == c ==> b.At(q).value.kind !in kinds
  }

  /** Relocations only move pieces, so they never bring in a missing one. */
  lemma {:induction false} ApplyKeepsAbsent(b: Board, c: Color, kinds: set<Kind>, steps: seq<Move>)
    requires b.Wf() && StepsInBoard(steps) && Absent(b, c, kinds)
    ensures Absent(Apply(b, steps), c, kinds)
    decreases |steps|
  {
    if steps != [] {
      var init := steps[..|steps| - 1];
      assert StepsInBoard(init);
      ApplyKeepsAbsent(b, c, kinds, init);
      var before := Apply(b, init);
      var s := steps[|steps| - 1];
      assert Apply(b, steps) == Relocate(before, s);
      forall q | InBoard(q) && Relocate(before, s).At(q).Some? && Relocate(before, s).At(q).value.color == c
        ensures Relocate(before, s).At(q).value.kind !in kinds
      {
        if q == s.to {
          assert Relocate(before, s).At(q) == before.At(s.from);
        } else if q != s.from {
          assert Relocate(before, s).At(q) == before.At(q);
        }
      }
    }
  }

  /** When the only essential piece of c stands on k and every piece of the
      other colour stands in `attackers`, c is in check exactly when one of
      the attackers can validly move onto k. */
  lemma {:induction false} CheckFromAttackers(b: Board, c: Color, k: Pos, attackers: set<Pos>)
    requires b.Wf() && InBoard(k) && EssentialAt(b, k) && b.At(k).value.color == c
    requires forall q :: InBoard(q) && EssentialAt(b, q) && b.At(q).value.color == c ==> q == k
    requires forall q :: InBoard(q) && b.At(q).Some? && b.At(q).value.color != c ==> q in attackers
    ensures InCheck(b, c) <==> exists a :: a in attackers && InBoard(a) && EnemyReaches(b, c, k, a)
  {
    if InCheck(b, c) {
      var er, ef, ar, af :| 0 <= er < 8 && 0 <= ef < 8 && 0 <= ar < 8 && 0 <= af < 8
        && EssentialAt(b, Pos(er, ef)) && b.At(Pos(er, ef)).value.color == c
        && EnemyReaches(b, c, Pos(er, ef), Pos(ar, af));
      assert Pos(er, ef) == k;
      assert Pos(ar, af) in attackers;
    }
    if exists a :: a in attackers && InBoard(a) && EnemyReaches(b, c, k, a) {
      var a :| a in attackers && InBoard(a) && EnemyReaches(b, c, k, a);
      assert EnemyReaches(b, c, Pos(k.rank, k.file), Pos(a.rank, a.file));
    }
  }

  /** An attacker whose colour has no king on the board reaches k exactly when
      its geometry allows the move. */
  lemma {:induction false} AttackWithoutEnemyKing(b: Board, c: Color, k: Pos, a: Pos)
    requires b.Wf() && InBoard(k) && InBoard(a) && EssentialAt(b, k) && b.At(k).value.color == c
    requires Absent(b, Opposite(c), {King})
    ensures EnemyReaches(b, c, k, a) <==>
      b.At(a).Some? && b.At(a).value.color != c && Geometry(b, b.At(a).value, Move(a, k)).Truthy()
  {
    if b.At(a).Some? && b.At(a).value.color != c {
      assert b.At(a).value.color == Opposite(c);
      ValidateWithoutCheck(b, b.At(a).value, Move(a, k));
    }
  }

  /** Where the mover has no essential piece, or the opponent has no piece
      at all, the validator is the universal checks plus the geometry. */
  lemma {:induction false} ValidateWithoutCheck(b: Board, pc: Piece, m: Move)
    requires b.Wf() && MoveInBoard(m)
    requires Absent(b, pc.color, {King}) || Absent(b, Opposite(pc.color), AllKinds)
    ensures Validate(b, pc, m) ==
      if m.from == m.to then Invalid
      else if b.At(m.to).Some? && b.At(m.to).value.color == pc.color then Invalid
      else if !Geometry(b, pc, m).Truthy() then Invalid
      else Geometry(b, pc, m)
  {
    ValidateCharacterization(b, pc, m);
    var steps := Geometry(b, pc, m).ValueOr(m);
    forall k | 1 <= k <= |steps| ensures !InCheck(Apply(b, steps[..k]), pc.color) {
      assert StepsInBoard(steps[..k]);
      if Absent(b, pc.color, {King}) {
        ApplyKeepsAbsent(b, pc.color, {King}, steps[..k]);
      } else {
        ApplyKeepsAbsent(b, Opposite(pc.color), AllKinds, steps[..k]);
      }
    }
    PrefixEssentials(b, steps);
    assert SafeAfterEachStep(b, steps, pc.color);
  }

  // ------------------------------------------------------------ enumerator

  /** What the enumerator yields for one probe: nothing, the move itself as a
      one-element list, or the validator's relocation list. */
  function Yielded(res: MoveValidResult, m: Move): (r: seq<seq<Move>>)
    ensures res.Truthy() && res.Wf() ==> r == [res.ValueOr(m)]
    ensures !res.Truthy() ==> r == []
  {
    if !res.Truthy() then [] else if res.Empty() then [[m]] else [res.moves]
  }

  /** The probe of target t yields the validated relocation list of the move
      from `from` to t, if any. */
  predicate YieldsAt(b: Board, pc: Piece, from: Pos, t: Pos, l: seq<Move>)
    requires b.Wf() && InBoard(from) && InBoard(t)
  {
    Validate(b, pc, Move(from, t)).Truthy() && l == Validate(b, pc, Move(from, t)).ValueOr(Move(from, t))
  }

  /** The lists yielded by the probes of the targets before (i, j) in
      row-major order. */
  function Scan(b: Board, pc: Piece, from: Pos, i: int, j: int): (r: seq<seq<Move>>)
    requires b.Wf() && InBoard(from) && 0 <= i <= 8 && 0 <= j <= 8 && (j > 0 ==> i < 8)
    ensures forall l :: l in r ==> 1 <= |l| <= MaxCounts && StepsInBoard(l)
    decreases i, j, b
  {
    if j > 0 then
      var m := Move(from, Pos(i, j - 1));
      Scan(b, pc, from, i, j - 1) + Yielded(Validate(b, pc, m), m)
    else if i > 0 then Scan(b, pc, from, i - 1, 8)
    else []
  }

  /** `chesspiece::valid_moves`, eagerly: every validated target, in order. */
  function ValidMovesSpec(b: Board, pc: Piece, from: Pos): (r: seq<seq<Move>>)
    requires b.Wf() && InBoard(from)
    ensures forall l :: l in r ==> 1 <= |l| <= MaxCounts && StepsInBoard(l)
  {
    Scan(b, pc, from, 8, 0)
  }

  /** A list occurs in the scan up to (i, j) exactly when some earlier target
      yields it. */
  lemma {:induction false} ScanMembership(b: Board, pc: Piece, from: Pos, i: int, j: int, l: seq<Move>)
    requires b.Wf() && InBoard(from) && 0 <= i <= 8 && 0 <= j <= 8 && (j > 0 ==> i < 8)
    ensures l in Scan(b, pc, from, i, j) <==>
      exists t :: InBoard(t) && Compare(t, Pos(i, j)) == Less && YieldsAt(b, pc, from, t, l)
    decreases i, j
  {
    if j > 0 {
      ScanMembership(b, pc, from, i, j - 1, l);
      var t := Pos(i, j - 1);
      var m := Move(from, t);
      assert l in Yielded(Validate(b, pc, m), m) <==> YieldsAt(b, pc, from, t, l);
      if exists t' :: InBoard(t') && Compare(t', Pos(i, j)) == Less && YieldsAt(b, pc, from, t', l) {
        var t' :| InBoard(t') && Compare(t', Pos(i, j)) == Less && YieldsAt(b, pc, from, t', l);
        if t' != t {
          assert Compare(t', Pos(i, j - 1)) == Less;
        }
      }
    } else if i > 0 {
      ScanMembership(b, pc, from, i - 1, 8, l);
      if exists t' :: InBoard(t') && Compare(t', Pos(i, j)) == Less && YieldsAt(b, pc, from, t', l) {
        var t' :| InBoard(t') && Compare(t', Pos(i, j)) == Less && YieldsAt(b, pc, from, t', l);
        assert Compare(t', Pos(i - 1, 8)) == Less;
      }
    }
  }

  /** The enumerator yields exactly the relocation lists of the validated
      targets (a simple result as the one-element list of the move). */
  lemma {:induction false} ValidMovesExactly(b: Board, pc: Piece, from: Pos, l: seq<Move>)
    requires b.Wf() && InBoard(from)
    ensures l in ValidMovesSpec(b, pc, from) <==>
      exists t :: InBoard(t) && Validate(b, pc, Move(from, t)).Truthy()
                  && l == Validate(b, pc, Move(from, t)).ValueOr(Move(from, t))
  {
    ScanMembership(b, pc, from, 8, 0, l);
    if exists t :: InBoard(t) && Validate(b, pc, Move(from, t)).Truthy()
                   && l == Validate(b, pc, Move(from, t)).ValueOr(Move(from, t)) {
      var t :| InBoard(t) && Validate(b, pc, Move(from, t)).Truthy()
               && l == Validate(b, pc, Move(from, t)).ValueOr(Move(from, t));
      assert Compare(t, Pos(8, 0)) == Less && YieldsAt(b, pc, from, t, l);
    }
  }

  /** Self-check invariant: applying any yielded list leaves the mover's
      colour out of check. */
  lemma {:induction false} ValidMovesLeaveNoCheck(b: Board, pc: Piece, from: Pos, l: seq<Move>)
    requires b.Wf() && InBoard(from) && l in ValidMovesSpec(b, pc, from)
    ensures StepsInBoard(l) && !InCheck(Apply(b, l), pc.color)
  {
    ValidMovesExactly(b, pc, from, l);
    var t :| InBoard(t) && Validate(b, pc, Move(from, t)).Truthy()
             && l == Validate(b, pc, Move(from, t)).ValueOr(Move(from, t));
    ValidLeavesNoCheck(b, pc, Move(from, t));
  }

  /** The enumerator yields nothing exactly when no target square validates. */
  lemma {:induction false} NoValidMovesIffNoTarget(b: Board, pc: Piece, from: Pos)
    requires b.Wf() && InBoard(from)
    ensures ValidMovesSpec(b, pc, from) == [] <==>
      forall t :: InBoard(t) ==> !Validate(b, pc, Move(from, t)).Truthy()
  {
    var lists := ValidMovesSpec(b, pc, from);
    if lists != [] {
      ValidMovesExactly(b, pc, from, lists[0]);
    }
    if exists t :: InBoard(t) && Validate(b, pc, Move(from, t)).Truthy() {
      var t :| InBoard(t) && Validate(b, pc, Move(from, t)).Truthy();
      ValidMovesExactly(b, pc, from, Validate(b, pc, Move(from, t)).ValueOr(Move(from, t)));
    }
  }

  /** Pieces other than the king and the pawn never return relocation lists,
      so the enumerator yields for them exactly the single moves to the valid
      targets. */
  lemma {:induction false} SingleMoveLists(b: Board, pc: Piece, from: Pos, l: seq<Move>)
    requires b.Wf() && InBoard(from) && pc.kind !in {King, Pawn}
    ensures l in ValidMovesSpec(b, pc, from) <==>
      |l| == 1 && l[0].from == from && InBoard(l[0].to) && Validate(b, pc, l[0]).Truthy()
  {
    ValidMovesExactly(b, pc, from, l);
    if l in ValidMovesSpec(b, pc, from) {
      var t :| InBoard(t) && Validate(b, pc, Move(from, t)).Truthy()
               && l == Validate(b, pc, Move(from, t)).ValueOr(Move(from, t));
      ValidateCharacterization(b, pc, Move(from, t));
    }
    if |l| == 1 && l[0].from == from && InBoard(l[0].to) && Validate(b, pc, l[0]).Truthy() {
      var t := l[0].to;
      ValidateCharacterization(b, pc, Move(from, t));
      assert l == Validate(b, pc, Move(from, t)).ValueOr(Move(from, t));
    }
  }
}
