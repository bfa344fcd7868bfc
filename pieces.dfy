/** Per-piece move geometry. Each rule looks only at the board and the move;
    the universal checks (null move, own-colour target, self-check) belong to
    the validator. */
module Pieces {
  import opened Chess

  function Abs(x: int): nat {
    if x < 0 then -x else x
  }

  function Min(a: int, b: int): int { if a < b then a else b }
  function Max(a: int, b: int): int { if a < b then b else a }

  /** Integer division truncating toward zero, as the source language has it. */
  function TruncDiv(a: int, d: int): int
    requires d > 0
  {
    if a >= 0 then a / d else -((-a) / d)
  }

  /** One square along a ray: `i` squares from `x` in the direction of `s`. */
  function Toward(x: int, s: int, i: int): int {
    if s > 0 then x + i else if s < 0 then x - i else x
  }

  // ------------------------------------------------------------------ rook

  /** Every square strictly between the two files on `rank` is empty. */
  predicate RankClear(b: Board, rank: int, f1: int, f2: int)
    requires b.Wf() && 0 <= rank < 8 && 0 <= f1 < 8 && 0 <= f2 < 8
  {
    forall f :: Min(f1, f2) < f < Max(f1, f2) ==> b.At(Pos(rank, f)).None?
  }

  /** Every square strictly between the two ranks on `file` is empty. */
  predicate FileClear(b: Board, file: int, r1: int, r2: int)
    requires b.Wf() && 0 <= file < 8 && 0 <= r1 < 8 && 0 <= r2 < 8
  {
    forall r :: Min(r1, r2) < r < Max(r1, r2) ==> b.At(Pos(r, file)).None?
  }

  /** A rook move: along exactly one axis, nothing in between. The target
      cell itself is not examined. */
  predicate RookValid(b: Board, m: Move)
    requires b.Wf() && MoveInBoard(m)
  {
    (m.from.rank == m.to.rank && m.from.file != m.to.file && RankClear(b, m.from.rank, m.from.file, m.to.file))
    || (m.from.file == m.to.file && m.from.rank != m.to.rank && FileClear(b, m.from.file, m.from.rank, m.to.rank))
  }

  /** The rook's scanning loops. */
  method RookIsValidMove(b: Board, m: Move) returns (ok: bool)
    requires b.Wf() && MoveInBoard(m)
    ensures ok == RookValid(b, m)
  {
    var to, from := m.to, m.from;
    var drank, dfile := from.rank - to.rank, from.file - to.file;
    if drank == 0 && dfile != 0 {
      var lastFile := if dfile < 0 then to.file else from.file;
      var file := (if dfile < 0 then from.file else to.file) + 1;
      while file < lastFile
        invariant Min(from.file, to.file) + 1 <= file <= Max(from.file, to.file)
        invariant forall f :: Min(from.file, to.file) < f < file ==> b.At(Pos(from.rank, f)).None?
      {
        if b.At(Pos(from.rank, file)).Some? {
          return false;
        }
        file := file + 1;
      }
      return true;
    } else if dfile == 0 && drank != 0 {
      var lastRank := if drank < 0 then to.rank else from.rank;
      var rank := (if drank < 0 then from.rank else to.rank) + 1;
      while rank < lastRank
        invariant Min(from.rank, to.rank) + 1 <= rank <= Max(from.rank, to.rank)
        invariant forall r :: Min(from.rank, to.rank) < r < rank ==> b.At(Pos(r, from.file)).None?
      {
        if b.At(Pos(rank, from.file)).Some? {
          return false;
        }
        rank := rank + 1;
      }
      return true;
    }
    return false;
  }

  // ---------------------------------------------------------------- bishop

  /** A bishop move: |drank| == |dfile| and every diagonal square strictly
      between is empty. */
  predicate BishopValid(b: Board, m: Move)
    requires b.Wf() && MoveInBoard(m)
  {
    var drank, dfile := m.to.rank - m.from.rank, m.to.file - m.from.file;
    Abs(drank) == Abs(dfile)
    && forall i :: 0 < i < Abs(drank) ==>
         b.At(Pos(Toward(m.from.rank, drank, i), Toward(m.from.file, dfile, i))).None?
  }

  /** `i * d / n` is exact when |d| == n. */
  lemma {:induction false} StepOffset(i: int, d: int, n: int)
    requires 0 <= i && 0 < n < 8 && Abs(d) == n
    ensures TruncDiv(i * d, n) == Toward(0, d, i)
  {
    if d > 0 {
      assert i * d == i * n;
      MulDivExact(i, n);
    } else {
      assert -(i * d) == i * n;
      MulDivExact(i, n);
    }
  }

  lemma MulDivExact(i: int, n: int)
    requires 0 <= i && 0 < n < 8
    ensures (i * n) / n == i
  {
    if n == 1 {
    } else if n == 2 {
    } else if n == 3 {
    } else if n == 4 {
    } else if n == 5 {
    } else if n == 6 {
    } else {
      assert n == 7;
    }
  }

  /** The bishop's scanning loop, with the source's truncating division. */
  method BishopIsValidMove(b: Board, m: Move) returns (ok: bool)
    requires b.Wf() && MoveInBoard(m)
    ensures ok == BishopValid(b, m)
  {
    var to, from := m.to, m.from;
    var drank, dfile := to.rank - from.rank, to.file - from.file;
    if Abs(drank) != Abs(dfile) {
      return false;
    }
    var count := Abs(drank);
    var i := 1;
    while i < count
      invariant 1 <= i && (count > 0 ==> i <= count)
      invariant forall k :: 0 < k < i ==> b.At(Pos(Toward(from.rank, drank, k), Toward(from.file, dfile, k))).None?
    {
      StepOffset(i, drank, count);
      StepOffset(i, dfile, count);
      var p := Pos(from.rank + TruncDiv(i * drank, count), from.file + TruncDiv(i * dfile, count));
      assert p == Pos(Toward(from.rank, drank, i), Toward(from.file, dfile, i));
      if b.At(p).Some? {
        return false;
      }
      i := i + 1;
    }
    return true;
  }

  // ----------------------------------------------------------------- queen

  /** The queen: a bishop's or a rook's move, so along a rank, a file or a
      diagonal. */
  predicate QueenValid(b: Board, m: Move)
    requires b.Wf() && MoveInBoard(m)
    ensures QueenValid(b, m) ==>
      m.from.rank == m.to.rank || m.from.file == m.to.file
      || Abs(m.to.rank - m.from.rank) == Abs(m.to.file - m.from.file)
  {
    BishopValid(b, m) || RookValid(b, m)
  }

  /** With nothing else on the board the queen reaches every square on its
      lines. */
  lemma {:induction false} QueenLines(b: Board, m: Move)
    requires b.Wf() && MoveInBoard(m)
    ensures (forall p :: InBoard(p) && p != m.from ==> b.At(p).None?) ==>
      (QueenValid(b, m) <==>
        m.from.rank == m.to.rank || m.from.file == m.to.file
        || Abs(m.to.rank - m.from.rank) == Abs(m.to.file - m.from.file))
  {
    var drank, dfile := m.to.rank - m.from.rank, m.to.file - m.from.file;
    if (forall p :: InBoard(p) && p != m.from ==> b.At(p).None?) && Abs(drank) == Abs(dfile) {
      forall i | 0 < i < Abs(drank)
        ensures b.At(Pos(Toward(m.from.rank, drank, i), Toward(m.from.file, dfile, i))).None?
      {
        assert Toward(m.from.rank, drank, i) != m.from.rank;
      }
    }
  }

  // ---------------------------------------------------------------- knight

  /** The L-shaped jump; the board is not consulted. */
  predicate KnightValid(m: Move)
    ensures KnightValid(m) <==>
      (Abs(m.from.rank - m.to.rank), Abs(m.from.file - m.to.file)) in {(1, 2), (2, 1)}
  {
    var drank, dfile := Abs(m.from.rank - m.to.rank), Abs(m.from.file - m.to.file);
    drank < 3 && dfile < 3 && drank + dfile == 3
  }

  // ------------------------------------------------------------------ king

  /** The rank on which a colour's pieces start: "1" for white, "8" for black. */
  function HomeRank(c: Color): int {
    if c == White then 7 else 0
  }

  /** The glyph a castling rook must show. */
  function RookGlyph(c: Color): char {
    Glyph(Piece(Rook, c, false))
  }

  /** A piece shows the rook glyph of colour c exactly when it is a rook of c. */
  lemma {:induction false} RookGlyphMeansRook(p: Piece, c: Color)
    ensures Glyph(p) == RookGlyph(c) <==> p.kind == Rook && p.color == c
  {
    if Glyph(p) == RookGlyph(c) {
      GlyphDetermines(p, Piece(Rook, c, false));
    }
  }

  /** Short castling: a zero-length probe on the king's square, the king via
      F to G, then the rook from H to F. */
  function ShortCastling(from: Pos, c: Color): seq<Move> {
    var r := HomeRank(c);
    [Move(from, from), Move(from, Pos(r, 5)), Move(Pos(r, 5), Pos(r, 6)), Move(Pos(r, 7), Pos(r, 5))]
  }

  /** Long castling as the source lists it: the king walks D, C, B and the
      rook goes from A to D. */
  function LongCastling(from: Pos, c: Color): seq<Move> {
    var r := HomeRank(c);
    [Move(from, from), Move(from, Pos(r, 3)), Move(Pos(r, 3), Pos(r, 2)), Move(Pos(r, 2), Pos(r, 1)),
     Move(Pos(r, 0), Pos(r, 3))]
  }

  predicate KingAdjacent(m: Move) {
    var drank, dfile := Abs(m.from.rank - m.to.rank), Abs(m.from.file - m.to.file);
    drank < 2 && dfile < 2 && drank + dfile <= 2
  }

  /** An unmoved rook of colour c on the given square. */
  predicate CastlingRook(b: Board, c: Color, p: Pos)
    requires b.Wf() && InBoard(p)
  {
    b.At(p).Some? && Glyph(b.At(p).value) == RookGlyph(c) && !b.At(p).value.moved
  }

  function KingGeometry(b: Board, c: Color, m: Move, moved: bool): (r: MoveValidResult)
    requires b.Wf() && MoveInBoard(m)
    ensures r.Wf()
    ensures r.Relocations? ==> StepsInBoard(r.moves) && r.moves[0] == Move(m.from, m.from)
    ensures r.Relocations? ==> !moved && b.At(m.to).None?
    ensures r.Relocations? ==> m.to in {Pos(HomeRank(c), 6), Pos(HomeRank(c), 2)}
  {
    var home := HomeRank(c);
    if !moved && b.At(m.to).None? && m.to == Pos(home, 6) && CastlingRook(b, c, Pos(home, 7)) then
      if b.At(Pos(home, 5)).Some? then Invalid
      else FromMoves(ShortCastling(m.from, c))
    else if !moved && b.At(m.to).None? && m.to == Pos(home, 2) && CastlingRook(b, c, Pos(home, 0)) then
      if b.At(Pos(home, 3)).Some? || b.At(Pos(home, 2)).Some? || b.At(Pos(home, 1)).Some? then Invalid
      else FromMoves(LongCastling(m.from, c))
    else FromBool(KingAdjacent(m))
  }

  /** Away from the castling targets the king steps to any adjacent square. */
  lemma KingWithoutCastling(b: Board, c: Color, m: Move, moved: bool)
    requires b.Wf() && MoveInBoard(m)
    requires moved || b.At(m.to).Some? || m.to !in {Pos(HomeRank(c), 6), Pos(HomeRank(c), 2)}
    ensures KingGeometry(b, c, m, moved) == FromBool(KingAdjacent(m))
  {
  }

  /** Short castling succeeds exactly with an unmoved king, an empty G, an
      unmoved own rook on H and an empty F; an occupied F refuses it. */
  lemma ShortCastlingRule(b: Board, c: Color, m: Move, moved: bool)
    requires b.Wf() && MoveInBoard(m) && m.to == Pos(HomeRank(c), 6)
    ensures KingGeometry(b, c, m, moved) == Relocations(ShortCastling(m.from, c)) <==>
      !moved && b.At(m.to).None? && CastlingRook(b, c, Pos(HomeRank(c), 7)) && b.At(Pos(HomeRank(c), 5)).None?
    ensures !moved && b.At(m.to).None? && CastlingRook(b, c, Pos(HomeRank(c), 7)) && b.At(Pos(HomeRank(c), 5)).Some?
      ==> KingGeometry(b, c, m, moved) == Invalid
  {
    var home := HomeRank(c);
    if !moved && b.At(m.to).None? && CastlingRook(b, c, Pos(home, 7)) && b.At(Pos(home, 5)).None? {
      assert KingGeometry(b, c, m, moved) == Relocations(ShortCastling(m.from, c));
    }
  }

  /** Long castling succeeds exactly with an unmoved king, an unmoved own rook
      on A and D, C, B empty. */
  lemma {:induction false} LongCastlingRule(b: Board, c: Color, m: Move, moved: bool)
    requires b.Wf() && MoveInBoard(m) && m.to == Pos(HomeRank(c), 2)
    ensures KingGeometry(b, c, m, moved) == Relocations(LongCastling(m.from, c)) <==>
      !moved && CastlingRook(b, c, Pos(HomeRank(c), 0))
      && b.At(Pos(HomeRank(c), 3)).None? && b.At(Pos(HomeRank(c), 2)).None? && b.At(Pos(HomeRank(c), 1)).None?
  {
    var home := HomeRank(c);
    if !moved && CastlingRook(b, c, Pos(home, 0))
       && b.At(Pos(home, 3)).None? && b.At(Pos(home, 2)).None? && b.At(Pos(home, 1)).None? {
      LongCastlingOffered(b, c, m, moved);
    }
    if KingGeometry(b, c, m, moved) == Relocations(LongCastling(m.from, c)) {
      LongCastlingRequires(b, c, m, moved);
    }
  }

  lemma LongCastlingOffered(b: Board, c: Color, m: Move, moved: bool)
    requires b.Wf() && MoveInBoard(m) && m.to == Pos(HomeRank(c), 2)
    requires !moved && CastlingRook(b, c, Pos(HomeRank(c), 0))
    requires b.At(Pos(HomeRank(c), 3)).None? && b.At(Pos(HomeRank(c), 2)).None? && b.At(Pos(HomeRank(c), 1)).None?
    ensures KingGeometry(b, c, m, moved) == Relocations(LongCastling(m.from, c))
  {
  }

  lemma LongCastlingRequires(b: Board, c: Color, m: Move, moved: bool)
    requires b.Wf() && MoveInBoard(m) && m.to == Pos(HomeRank(c), 2)
    requires KingGeometry(b, c, m, moved) == Relocations(LongCastling(m.from, c))
    ensures !moved && CastlingRook(b, c, Pos(HomeRank(c), 0))
    ensures b.At(Pos(HomeRank(c), 3)).None? && b.At(Pos(HomeRank(c), 2)).None? && b.At(Pos(HomeRank(c), 1)).None?
  {
  }

  // ------------------------------------------------------------------ pawn

  /** The direction a pawn moves in: toward rank 0 for white. */
  function PawnStep(c: Color): int {
    if c == White then -1 else 1
  }

  function PawnGlyph(c: Color): char {
    Glyph(Piece(Pawn, c, false))
  }

  /** The last move was a two-rank advance of a piece showing the enemy pawn
      glyph, ending beside `m.from` on the file of `m.to`. The source reads
      the glyph without checking that the cell is occupied; here an empty
      cell does not qualify. */
  predicate EnPassant(b: Board, c: Color, m: Move)
    requires b.Wf() && MoveInBoard(m)
    ensures EnPassant(b, c, m) ==>
      && b.lastMove.Some? && b.At(b.lastMove.value.to).Some?
      && b.At(b.lastMove.value.to).value.kind == Pawn
      && b.At(b.lastMove.value.to).value.color == Opposite(c)
  {
    b.lastMove.Some? &&
    var last := b.lastMove.value;
    b.At(last.to).Some? && Glyph(b.At(last.to).value) == PawnGlyph(Opposite(c))
    && Abs(last.from.rank - last.to.rank) == 2
    && m.from.rank == last.to.rank && m.to.file == last.to.file
  }

  predicate PawnDiagonal(c: Color, m: Move) {
    var step := PawnStep(c);
    (m.from.file + step == m.to.file || m.from.file - step == m.to.file) && m.from.rank + step == m.to.rank
  }

  function PawnGeometry(b: Board, c: Color, m: Move, moved: bool): (r: MoveValidResult)
    requires b.Wf() && MoveInBoard(m)
    ensures r.Wf()
    ensures r.Relocations? ==> b.lastMove.Some? && r == Relocations([Move(b.lastMove.value.to, m.to), m])
    ensures r.Relocations? ==> StepsInBoard(r.moves) && b.lastMove.value.to != m.to
  {
    var to, from, step := m.to, m.from, PawnStep(c);
    if !moved && from.file == to.file && from.rank + 2 * step == to.rank
       && b.At(Pos(from.rank + step, from.file)).None? && b.At(to).None? then Simple
    else if from.file == to.file && from.rank + step == to.rank && b.At(to).None? then Simple
    else if PawnDiagonal(c, m) then
      if EnPassant(b, c, m) then FromMoves([Move(b.lastMove.value.to, to), Move(from, to)])
      else FromBool(b.At(to).Some?)
    else Invalid
  }

  /** Pushes: one square onto an empty cell, or two from the start when both
      cells are empty. */
  lemma PawnPushes(b: Board, c: Color, m: Move, moved: bool)
    requires b.Wf() && MoveInBoard(m) && m.from.file == m.to.file
    ensures m.to.rank == m.from.rank + PawnStep(c) ==>
      (PawnGeometry(b, c, m, moved).Truthy() <==> b.At(m.to).None?)
    ensures m.to.rank == m.from.rank + 2 * PawnStep(c) ==>
      (PawnGeometry(b, c, m, moved).Truthy() <==>
        !moved && b.At(Pos(m.from.rank + PawnStep(c), m.from.file)).None? && b.At(m.to).None?)
    ensures m.to.rank != m.from.rank + PawnStep(c) && m.to.rank != m.from.rank + 2 * PawnStep(c) ==>
      PawnGeometry(b, c, m, moved) == Invalid
  {
  }

  /** A forward diagonal step is valid iff it captures or is en passant;
      en passant yields the capture relocation first. */
  lemma PawnCaptures(b: Board, c: Color, m: Move, moved: bool)
    requires b.Wf() && MoveInBoard(m) && PawnDiagonal(c, m)
    ensures EnPassant(b, c, m) ==>
      PawnGeometry(b, c, m, moved) == Relocations([Move(b.lastMove.value.to, m.to), m])
    ensures !EnPassant(b, c, m) ==>
      PawnGeometry(b, c, m, moved) == FromBool(b.At(m.to).Some?)
  {
  }

  /** The promotion rule: a pawn on the far rank becomes a queen. */
  function Promotion(p: Piece, at: Pos): (r: Option<Piece>)
    ensures r.Some? <==> p.kind == Pawn && at.rank == (if p.color == White then 0 else 7)
    ensures r.Some? ==> r.value.kind == Queen && r.value.color == p.color
  {
    if p.kind != Pawn then None
    else if p.color == White then (if at.rank != 0 then None else Some(Piece(Queen, p.color, false)))
    else (if at.rank != 7 then None else Some(Piece(Queen, p.color, false)))
  }

  /** `promote`: switch the variant when the rule yields a piece; the moved
      flag stays. */
  function Promote(p: Piece, at: Pos): (r: Piece)
    ensures r.moved == p.moved && r.color == p.color
    ensures Promotion(p, at).None? ==> r == p
    ensures Promotion(p, at).Some? ==> r.kind == Queen
  {
    match Promotion(p, at)
    case Some(q) => p.(kind := q.kind, color := q.color)
    case None => p
  }

  // -------------------------------------------------------------- dispatch

  /** The geometry of the piece's variant, with its moved flag where the rule
      uses one. */
  function Geometry(b: Board, pc: Piece, m: Move): (r: MoveValidResult)
    requires b.Wf() && MoveInBoard(m)
    ensures r.Wf()
    ensures r.Relocations? ==> StepsInBoard(r.moves)
    ensures r.Relocations? && b.At(m.to).Some? ==> r.moves[0].to == m.to && r.moves[0].from != m.to
    ensures pc.kind !in {King, Pawn} ==> !r.Relocations?
  {
    match pc.kind
    case Rook => FromBool(RookValid(b, m))
    case Bishop => FromBool(BishopValid(b, m))
    case Queen => FromBool(QueenValid(b, m))
    case Knight => FromBool(KnightValid(m))
    case King => KingGeometry(b, pc.color, m, pc.moved)
    case Pawn => PawnGeometry(b, pc.color, m, pc.moved)
  }
}
