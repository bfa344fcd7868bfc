/** The validator and the move enumerator as the source runs them: a loop that
    relocates step by step on a copy and tests check after each step, and a
    nested loop over the 64 target squares. Each is proved equal to its
    specification in module Validation. */
module ChessPiece {
  import opened Chess
  import opened Pieces
  import opened Validation

  /** `chesspiece::is_valid_move` */
  method IsValidMove(b: Board, pc: Piece, m: Move) returns (r: MoveValidResult)
    requires b.Wf() && MoveInBoard(m)
    ensures r == Validate(b, pc, m)
  {
    if m.from == m.to {
      return Invalid;
    }
    var target := b.At(m.to);
    if target.Some? && target.value.color == pc.color {
      return Invalid;
    }
    var result := Geometry(b, pc, m);
    if !result.Truthy() {
      return Invalid;
    }
    var steps := result.ValueOr(m);
    var tmp := b;
    var i := 0;
    assert steps[..0] == [];
    while i < |steps|
      invariant 0 <= i <= |steps|
      invariant StepsInBoard(steps[..i]) && tmp == Apply(b, steps[..i])
      invariant SafeUpTo(b, steps, pc.color, i)
    {
      SafeUpToNext(b, steps, pc.color, i);
      ApplyNext(b, steps, i);
      tmp := Relocate(tmp, steps[i]);
      if InCheck(tmp, pc.color) {
        ValidateCharacterization(b, pc, m);
        return Invalid;
      }
      i := i + 1;
    }
    ValidateCharacterization(b, pc, m);
    return result;
  }

  /** `chesspiece::valid_moves`, collected eagerly in probe order. */
  method ValidMoves(b: Board, pc: Piece, from: Pos) returns (r: seq<seq<Move>>)
    requires b.Wf() && InBoard(from)
    ensures r == ValidMovesSpec(b, pc, from)
  {
    r := [];
    for i := 0 to 8
      invariant r == Scan(b, pc, from, i, 0)
    {
      for j := 0 to 8
        invariant r == Scan(b, pc, from, i, j)
      {
        var m := Move(from, Pos(i, j));
        var tmp := IsValidMove(b, pc, m);
        if tmp.Truthy() {
          if tmp.Empty() {
            r := r + [[m]];
          } else {
            r := r + [tmp.moves];
          }
        }
      }
    }
  }
}
