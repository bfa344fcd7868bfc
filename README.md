# TEChess rules engine in Dafny

A model of the rules core of TEChess, a small C++ chess engine, with proofs
about it. The engine takes a board position and a proposed move. It decides
whether the move is legal and works out the relocations the move implies:
castling and en passant move more than one piece. It executes the move,
promotes pawns, and reports whether the opponent is now checkmated or
stalemated.

The modules follow the source files:

- `chess.dfy` (module `Chess`) models `lib/chess.hpp`:
  - colours and `operator~`;
  - `pos`, with its two-character notation and its ordering;
  - `move`;
  - `move_valid_result`, the validator's result: invalid, valid with the move
    itself as the only relocation, or valid with one to five explicit
    relocations;
  - pieces, with their kind, colour, glyph, essential flag and moved flag;
  - the board layout, `fields[8][8]` plus the last move, as the value type
    `Board`.
- `pieces.dfy` (module `Pieces`) models `lib/chesspieces.hpp`, the move
  geometry of each piece:
  - the rook's and the bishop's scanning loops, as methods proved equal to
    predicates, with the source's truncating division;
  - the queen and the knight;
  - the king with short and long castling;
  - the pawn with pushes, captures, en passant and promotion.
- `validation.dfy` (module `Validation`) specifies `chesspiece::is_valid_move`
  and `chessboard::test_in_check`.
  - These two call each other. A move is valid only if no prefix of its
    relocations, applied to a copy, leaves the mover in check. A colour is in
    check when an enemy piece has a valid move onto one of its essential
    pieces.
  - The recursion ends because each nested validation captures an essential
    piece, so the essential pieces on the board serve as the termination
    measure.
  - The module also specifies `valid_moves`, which scans the 64 target
    squares in row-major order.
- `chesspiece.dfy` (module `ChessPiece`) holds `is_valid_move` and
  `valid_moves` as the source runs them: loops proved equal to those
  specifications.
- `chessboard.dfy` (module `Game`) models `lib/chessboard.cpp`:
  - the check, checkmate and stalemate scans, as nested loops;
  - the class `ChessBoard`: an 8x8 `array2` of cells plus the last move, with
    cell access and `move`.
  - `MakeMove` either refuses the move and leaves the board unchanged, or
    performs the relocations, marks the pieces as moved, promotes, records the
    move and classifies the position for the opponent.
  - The lemmas prove what each kind of move does to the board, and that
    checkmate is exactly check with no valid move.
- `scenarios.dfy` (module `Scenarios`) states the positions of the
  repository's piece tests and proves what the validator says about them:
  - rook, bishop, knight, king and pawn, on the empty board and in each
    later stage of their tests, with pieces blocking, offered for capture
    or attacking the king's neighbours;
  - en passant after a double step;
  - castling, castling refused while in check, and the test's later stages:
    the queen's two executed moves, after which the castlings are accepted
    or refused by the attacked squares and the moved flags.
  - Later stages are positions given as maps from squares to pieces, so
    executed moves and castling probes are stated as updates of that map.

Two things the source throws become error results in the model:

- the `invalid_argument` thrown by `pos(const char(&)[3])` becomes
  `Err(InvalidPosition)`;
- the one thrown by `chessboard::move` becomes `Err(NoFigure)` or
  `Err(InvalidMove)`.

The speculative board copies of the validator and the checkmate test are
values of type `Board`. The board the caller mutates is the class.

## Model

| member | source | states |
|---|---|---|
| Chess.Opposite | lib/chess.hpp:32-39 | `~` maps white to black and black to white, so it never returns its argument |
| Chess.OppositeInvolutive | lib/chess.hpp:32-39 | applying `~` twice gives back the colour |
| Chess.ParsePos | lib/chess.hpp:51-58 | notation is accepted exactly when the letter is A-H or a-h and the digit 1-8; the square is then on the board and prints back in upper case |
| Chess.ToString | lib/chess.hpp:66-71 | a square prints as an upper-case file letter followed by a rank digit |
| Chess.ToStringRoundTrip | lib/chess.hpp:51-71 | parsing the printed form of any square gives the square back |
| Chess.LowerCaseAccepted | lib/chess.hpp:52-53 | a lower-case file letter parses like its upper-case form |
| Chess.NotationExamples | test/pos.cpp:10-19 | the notation test's pairs, "A8" as (0, 0) through "D2" as (6, 3); out-of-range letters and digits are refused |
| Chess.Compare | lib/chess.hpp:62-63 | the defaulted comparison is equal exactly on equal squares and orders by rank, then file |
| Chess.CompareAntisymmetric | lib/chess.hpp:62-63 | a is less than b exactly when b is greater than a |
| Chess.CompareTransitive | lib/chess.hpp:62-63 | the ordering is transitive |
| Chess.MoveValidResult.Size | lib/chess.hpp:104-107 | for a well-formed result the size is at most five, the bound of the fixed move array, and it is zero, that is `empty()`, exactly when there is no explicit relocation list |
| Chess.MoveValidResult.ValueOr | lib/chess.hpp:98-101 | for a well-formed result the span holds one to five relocations: the given move alone when the size is zero, otherwise exactly `size()` of them |
| Chess.FromBool | lib/chess.hpp:86 | the boolean constructor is truthy exactly on `true`, has size 0, and yields the move itself |
| Chess.FromMoves | lib/chess.hpp:88-96 | the variadic constructor, for one to five moves, is truthy, has size n, and yields exactly those moves |
| Chess.Glyph | lib/chesspieces.hpp:15 | a piece's glyph is an upper-case letter exactly for white and a lower-case letter exactly for black |
| Chess.Essential | lib/chess.hpp:160 | every king is essential, and an essential piece shows the king's glyph 'K' or 'k' |
| Chess.MarkAsMoved | lib/chess.hpp:176-177 | marking sets the moved flag and keeps kind and colour |
| Chess.GlyphDetermines | lib/chesspieces.hpp:125-129 | equal glyphs mean equal kind and colour, except for the knight and the king, which share 'K'/'k' |
| Chess.Board.Set | lib/chess.hpp:202 | writing a cell changes that cell and no other, and keeps the last move |
| Chess.BoardsEqual | lib/chess.hpp:195-196 | two boards with the same 64 cells and the same last move are the same board |
| Chess.EmptyBoard | lib/chess.hpp:195-196 | a default board has every cell empty and no last move |
| Pieces.RookIsValidMove | lib/chesspieces.hpp:22-41 | the scanning loops accept exactly a move along one rank or one file with every square strictly between empty |
| Pieces.StepOffset | lib/chesspieces.hpp:105 | on a diagonal, `i * drank / count` with truncating division is exactly i steps in drank's direction |
| Pieces.BishopIsValidMove | lib/chesspieces.hpp:96-108 | the loop accepts exactly a diagonal move with every square strictly between empty |
| Pieces.QueenValid | lib/chesspieces.hpp:122 | the queen's move, a bishop's or a rook's move, lies on a rank, a file or a diagonal |
| Pieces.QueenLines | lib/chesspieces.hpp:122 | on a board holding nothing but the queen, it reaches exactly the squares on its rank, file and diagonals |
| Pieces.KnightValid | lib/chesspieces.hpp:136-142 | the knight's test accepts exactly the (1, 2) and (2, 1) jumps, whatever the board holds |
| Pieces.RookGlyphMeansRook | lib/chesspieces.hpp:64 | the castling test's rook glyph comparison holds exactly for a rook of the king's colour |
| Pieces.KingGeometry | lib/chesspieces.hpp:57-82 | a relocation list starts with the zero-length probe on the king's square; it is offered only to an unmoved king moving onto an empty G or C of its home rank |
| Pieces.KingWithoutCastling | lib/chesspieces.hpp:79-81 | a moved king, or one whose target is occupied or not a castling square, moves to any adjacent square |
| Pieces.ShortCastlingRule | lib/chesspieces.hpp:61-68 | short castling is returned exactly for an unmoved king, an empty G, an unmoved own rook on H and an empty F; with F occupied the move is invalid |
| Pieces.LongCastlingRule | lib/chesspieces.hpp:69-76 | long castling is returned exactly for an unmoved king, an unmoved own rook on A and empty D, C and B |
| Pieces.LongCastlingOffered | lib/chesspieces.hpp:69-76 | the conditions of long castling yield its relocation list |
| Pieces.LongCastlingRequires | lib/chesspieces.hpp:69-76 | the long castling list is returned only under those conditions |
| Pieces.EnPassant | lib/chesspieces.hpp:168-170 | en passant applies only when the last move's target holds a pawn of the other colour |
| Pieces.PawnGeometry | lib/chesspieces.hpp:156-177 | the only relocation list a pawn gets is en passant: the last moved piece goes to the target, then the pawn follows |
| Pieces.PawnPushes | lib/chesspieces.hpp:161-165 | a single push needs an empty target; the double push also needs an unmoved pawn and an empty square between; other forward distances are invalid |
| Pieces.PawnCaptures | lib/chesspieces.hpp:167-174 | a forward diagonal step is en passant when the last move was an enemy pawn's double step ending beside the pawn on the target's file; otherwise it is valid exactly onto an occupied cell |
| Pieces.Promotion | lib/chesspieces.hpp:179-188 | a pawn is promoted exactly on the far rank, rank 0 for white and 7 for black, and the new piece is a queen of its colour |
| Pieces.Promote | lib/chess.hpp:190 | promotion switches the kind to queen where the rule applies, keeping colour and moved flag, and otherwise changes nothing |
| Pieces.Geometry | lib/chess.hpp:155-172 | dispatches to the piece's rule; only the king and the pawn produce relocation lists, and a list that captures starts on the target |
| Validation.RelocateEssentials | lib/chesspiece.cpp:22-24 | a relocation never adds an essential piece, and removes one exactly when it lands on one from another square |
| Validation.ApplyEssentials | lib/chesspiece.cpp:22-24 | a relocation list never increases the essential pieces, and one that starts by capturing an essential piece decreases them, so the validator and check test recursion terminates |
| Validation.Relocate | lib/chesspiece.cpp:23 | `exchange` on a copy: the target gets the source's contents, the source is emptied unless it is the target, no other cell changes |
| Validation.Apply | lib/chesspiece.cpp:22-24 | applying relocations to a copy keeps it well formed and keeps its last move |
| Validation.Validate | lib/chesspiece.cpp:10-28 | null moves and moves onto the mover's colour are invalid, as is anything the geometry refuses; a valid result is the geometry's |
| Validation.EnemyReaches | lib/chessboard.cpp:67-75 | a piece that reaches an essential piece of c stands elsewhere, is of the other colour and has the geometry for the move |
| Validation.InCheck | lib/chessboard.cpp:66-84 | a colour in check has an essential piece on the board and its opponent has at least one piece; so a colour without a king is never in check |
| Validation.ValidLeavesNoCheck | lib/chesspiece.cpp:21-25 | applying all relocations of a valid move leaves the mover out of check |
| Validation.NoCastlingOutOfCheck | lib/chesspieces.hpp:67 | the zero-length probe makes the validator test the unchanged position, so a king in check cannot castle |
| Validation.ProbeUnchanged | lib/chesspiece.cpp:23 | exchanging a cell with itself leaves the copy unchanged, so the castling lists' leading `{from, from}` probes the position as it is |
| Validation.ShortCastlingPrefixes | lib/chesspieces.hpp:67 | short castling's four relocations lie on the board, and the copy after the first is the board itself, and the copies after two, three and four are the board with the king on F, then on G, then with the rook on F |
| Validation.LongCastlingPrefixes | lib/chesspieces.hpp:75 | long castling's five relocations lie on the board, and the copy after the first is the board itself, and the copies after two and three are the board with the king on D, then on C |
| Validation.LongCastlingLastPrefixes | lib/chesspieces.hpp:75 | the copies after four and five are the board with the king moved on to B, then with the rook on D |
| Validation.ShortCastlingChecks | lib/chesspieces.hpp:61-68 | a short castling the geometry offers is valid exactly when the king is out of check on the board, with the king on F, with the king on G, and with the rook then on F |
| Validation.LongCastlingChecks | lib/chesspieces.hpp:69-76 | a long castling the geometry offers is valid exactly when the king is out of check on the board, with the king on D, on C, on B, and with the rook then on D |
| Validation.CheckFromAttackers | lib/chessboard.cpp:66-84 | with one king for a colour and every enemy piece among the listed squares, the colour is in check exactly when a listed enemy piece has a valid move onto the king |
| Validation.AttackWithoutEnemyKing | lib/chesspiece.cpp:10-28 | without a king of the attacking colour, an enemy piece threatens a square exactly when it stands there, is of the other colour and its geometry reaches the square |
| Validation.ApplyKeepsAbsent | lib/chesspiece.cpp:22-23 | relocations only move pieces, so a kind absent for a colour stays absent |
| Validation.ValidateWithoutCheck | lib/chesspiece.cpp:10-28 | without a king of the mover or without enemy pieces, validity is the universal checks plus the geometry |
| Validation.Scan | lib/chesspiece.cpp:31-37 | every list the probes up to (i, j) yield has one to five relocations, all on the board |
| Validation.ValidMovesSpec | lib/chesspiece.cpp:30-38 | every list the enumerator yields has one to five relocations, all on the board |
| Validation.ScanMembership | lib/chesspiece.cpp:31-37 | a list appears among the probes before (i, j) exactly when some target before (i, j) in row-major order validates to it |
| Validation.ValidMovesExactly | lib/chesspiece.cpp:30-38 | the enumerator yields exactly the relocation lists of the validated targets |
| Validation.ValidMovesLeaveNoCheck | lib/chesspiece.cpp:30-38 | every list the enumerator yields, applied to the board, leaves the mover out of check |
| Validation.NoValidMovesIffNoTarget | lib/chesspiece.cpp:30-38 | the enumerator yields nothing exactly when no target square validates |
| Validation.SingleMoveLists | lib/chesspiece.cpp:34-35 | for a piece other than king and pawn the enumerator yields exactly the one-move lists of valid moves from the square |
| ChessPiece.IsValidMove | lib/chesspiece.cpp:10-28 | the early returns and the check loop on the copy compute exactly the validator's result |
| ChessPiece.ValidMoves | lib/chesspiece.cpp:30-38 | the nested loop over the 64 targets computes exactly the enumerator's lists, in probe order |
| Game.NoValidMoves | lib/chessboard.cpp:55-64 | a colour with no piece on the board has no valid move |
| Game.IsCheckmate | lib/chessboard.cpp:37-53 | a checkmated colour has an essential piece on the board and its opponent has a piece |
| Game.ImmobileAt | lib/chessboard.cpp:57-62 | a piece of the colour has no valid move exactly when its enumerator yields nothing |
| Game.NoEscapeFromAt | lib/chessboard.cpp:43-50 | no valid move of the piece escapes check exactly when every enumerated list, applied to a copy, leaves the colour in check |
| Game.ListedStayInCheck | lib/chessboard.cpp:45-49 | if no valid move escapes check, no enumerated list does |
| Game.NoListedEscape | lib/chessboard.cpp:45-49 | if every enumerated list stays in check, every valid move does |
| Game.EscapeIffMobile | lib/chessboard.cpp:37-53 | on one square, the piece has a move escaping check exactly when it has a valid move at all |
| Game.CheckmateIsCheckWithoutMoves | lib/chessboard.cpp:37-64 | checkmate as tested is exactly check together with no valid move for the colour |
| Game.Outcome | lib/chessboard.cpp:27-34 | the reported state is checkmate for check without moves, stalemate for no moves without check, ongoing when a move exists |
| Game.ApplyRelocations | lib/chessboard.cpp:46-47 | the copy loop applies the relocations in order, without marking |
| Game.EnemyCanMoveHere | lib/chessboard.cpp:67-75 | the lambda finds exactly whether some piece not of the colour validly moves onto the given essential piece |
| Game.TestInCheck | lib/chessboard.cpp:66-84 | the scan returns exactly whether the colour is in check |
| Game.SquareMobile | lib/chessboard.cpp:59-62 | one square of the stalemate scan: a piece of the colour there has a valid move |
| Game.RankImmobile | lib/chessboard.cpp:58-62 | one rank of the stalemate scan: no piece of the colour on it can move |
| Game.TestStalemate | lib/chessboard.cpp:55-64 | the scan returns exactly whether no piece of the colour has a valid move |
| Game.AnyEscape | lib/chessboard.cpp:45-50 | the inner loop finds exactly whether some list, applied to a copy, leaves the colour out of check |
| Game.SquareEscapes | lib/chessboard.cpp:43-50 | one square of the checkmate scan: a piece of the colour there escapes check |
| Game.RankHasEscape | lib/chessboard.cpp:42-50 | one rank of the checkmate scan: some square on it holds a piece that escapes check |
| Game.TestCheckmate | lib/chessboard.cpp:37-53 | the scan returns exactly the checkmate condition: in check, and no valid move of any piece of the colour escapes it |
| Game.Landed | lib/chessboard.cpp:19-20 | a piece that lands keeps its kind and colour and is marked as moved; an empty cell stays empty |
| Game.RelocateMarked | lib/chessboard.cpp:19-20 | one relocation of `move`: the target gets the source's piece marked as moved, the source is emptied unless it is the target, nothing else changes |
| Game.Executed | lib/chessboard.cpp:17-25 | after an accepted move the target is occupied and the move is recorded as the last one |
| Game.ExecutedPlainMove | lib/chessboard.cpp:17-25 | an ordinary move or capture puts the moving piece, marked and promoted where the rule applies, on the target, empties the source and changes nothing else |
| Game.ShortCastlingRelocations | lib/chesspieces.hpp:67 | the short castling list puts the king on G and the rook from H on F, both marked, and empties the king's square and H |
| Game.LongCastlingRelocations | lib/chesspieces.hpp:75 | the long castling list as written puts the king on B and the rook from A on D, and leaves C empty |
| Game.ExecutedShortCastling | lib/chessboard.cpp:17-25 | executed short castling leaves the marked king on G and the marked rook on F, empties the king's square and H, and changes nothing else |
| Game.LongCastlingMissesTarget | lib/chesspieces.hpp:69-76 | an accepted long castling ends with the target C empty: the king stands on B and the rook on D |
| Game.EnPassantSteps | lib/chesspieces.hpp:168-171 | a pawn's relocation list moves the last moved piece onto the target and then the pawn; that piece stood neither on the source nor on the target |
| Game.ExecutedEnPassant | lib/chessboard.cpp:17-25 | executed en passant leaves the marked, possibly promoted, pawn on the target, empties its source and the captured pawn's square, and changes nothing else |
| Game.LandsOnTargetExactly | lib/chessboard.cpp:22 | after the relocations of an accepted move a piece stands on the target in every case except long castling |
| Game.ChessBoard.Value | lib/chess.hpp:194-196 | the board's value reads cell (rank, file) from `fields[rank][file]` and carries the last move |
| Game.ChessBoard.constructor | lib/chess.hpp:195-196 | a new board is empty and has no last move |
| Game.ChessBoard.Get | lib/chess.hpp:201 | reading a cell gives the value's cell |
| Game.ChessBoard.Put | lib/chess.hpp:202 | writing a cell changes only that cell |
| Game.ChessBoard.MakeMove | lib/chessboard.cpp:11-35 | no piece on the source gives NoFigure, a rejected move gives InvalidMove, and both leave the board unchanged; otherwise the board becomes the executed move and the result is the outcome for the opponent of the piece on the target |
| Game.ChessBoard.Execute | lib/chessboard.cpp:17-25 | performing the relocations, promoting and recording gives the executed board; the returned colour is that of the piece on the target |
| Game.ChessBoard.Record | lib/chessboard.cpp:22-25 | the piece on the target is promoted where the rule applies and the move becomes the last move |
| Game.ChessBoard.Perform | lib/chessboard.cpp:18-21 | the relocation loop applies the list in order, marking each landing piece |
| Game.ChessBoard.Shift | lib/chessboard.cpp:19-20 | one relocation on the fields, as in RelocateMarked |
| Game.Classify | lib/chessboard.cpp:27-34 | checkmate is tested first, then stalemate; the result is the outcome of the position |
| Scenarios.BishopOnEmptyBoard | test/chesspieces.cpp:10-15 | a lone bishop on C3 may move exactly to the other squares of its two diagonals |
| Scenarios.BishopBlocked | test/chesspieces.cpp:17-21 | with a black pawn on E5 the bishop may take it but not pass to F6, G7 or H8; with a white pawn added on B4 also B4 and A5 are refused; every other diagonal square remains |
| Scenarios.BishopTestDiagonal | test/chesspieces.cpp:17-21 | along the bishop's diagonals the path is clear except to F6, G7 and H8 behind the pawn on E5, and to A5 behind the own pawn on B4 |
| Scenarios.RookOnEmptyBoard | test/chesspieces.cpp:24-29 | a lone rook on D4 may move exactly to the other squares of rank 4 and of the D file |
| Scenarios.RookOnEmptyBoardMoves | test/chesspieces.cpp:24-29 | its enumerator yields exactly one single-move list per such target |
| Scenarios.RookBlocked | test/chesspieces.cpp:31-35 | with a black pawn on E4 the rook takes on E4, runs the D file and reaches C4 to A4, and nothing else; with a white pawn added on C4 only E4 and the D file remain |
| Scenarios.RookTestRank | test/chesspieces.cpp:31-35 | along rank 4 the rook's path is clear exactly from C4 to E4, and beyond C4 too while it holds no own pawn |
| Scenarios.KnightJumps | test/chesspieces.cpp:38-51 | in each of the knight test's five positions the knight on D4 jumps over the surrounding pawns to its eight squares, taking on E6; only in the last one F5, held by its own pawn, is refused |
| Scenarios.PawnOnEmptyBoard | test/chesspieces.cpp:54-61 | a lone pawn on D2 pushes to D3 or D4 while unmoved and only to D3 once moved |
| Scenarios.PawnTakesDiagonally | test/chesspieces.cpp:62-65 | the moved pawn on D2 pushes to D3 and takes the black pawns on C3 and E3; once E3 holds a white pawn only C3 and D3 remain |
| Scenarios.DoubleStep | test/chesspieces.cpp:68-74 | the black pawn's C7-C5 is accepted and leaves both pawns beside each other, C5 marked, with C7-C5 as the last move |
| Scenarios.EnPassantOffered | test/chesspieces.cpp:75-76 | then the white pawn on B5 may push to B6 and take en passant on C6, the latter as the two-relocation list |
| Scenarios.EnPassantAfterDoubleStep | test/chesspieces.cpp:68-77 | the en passant test as a whole |
| Scenarios.EnPassantReadsEmptyCell | lib/chesspieces.hpp:168-169 | after H6-H7 with kings on D4 and G8 and a black pawn on C5, the copy made for the capture probe H7xG8 has H6-H7 as last move and an empty H7, and on it the black pawn's C5xD4 is a diagonal step, so the en passant test reads the empty cell |
| Scenarios.KingOnEmptyBoard | test/chesspieces.cpp:81-86 | a lone king on D4 may move exactly to its eight neighbours |
| Scenarios.KingTestCheck | test/chesspieces.cpp:87-90 | with the king stepped from D4 to a neighbour, White is in check exactly on the E file, attacked by the rook on E6, or, with the knight on B2, on C4 and D3 |
| Scenarios.KingTestRookCheck | test/chesspieces.cpp:87-90 | a king stepped onto the E file below E6 is in check |
| Scenarios.KingTestRookReaches | test/chesspieces.cpp:87-90 | nothing stands between the rook on E6 and a king below it on the E file |
| Scenarios.KingTestKnightCheck | test/chesspieces.cpp:89-90 | a king stepped onto C4 or D3 is in check from the knight on B2 |
| Scenarios.KingTestSafe | test/chesspieces.cpp:87-90 | a king stepped onto any other neighbour of D4 is out of check |
| Scenarios.KingTestUnattacked | test/chesspieces.cpp:87-90 | there, neither the rook nor the knight has the geometry to reach the king |
| Scenarios.KingTestStep | lib/chesspiece.cpp:21-25 | the validator's self-check for a one-step king move is exactly that the position after the step is out of check |
| Scenarios.KingAvoidsAttackedSquares | test/chesspieces.cpp:87-90 | the king on D4 may step exactly to the neighbours the rook on E6 and, once placed, the knight on B2 do not attack |
| Scenarios.Relocated | lib/chesspiece.cpp:23 | moving one piece onto an empty square of a position moves its entry in the position's map of pieces |
| Scenarios.CheckInPosition | lib/chessboard.cpp:66-84 | with a single white king and no black king, White is in check exactly when the geometry of some black piece reaches the king |
| Scenarios.CastlingSides | lib/chesspieces.hpp:61-76 | in the castling positions E1-G1 is the short castling list when neither king nor H rook has moved, and invalid otherwise; E1-C1 is the long castling list when the king has not moved, and invalid otherwise |
| Scenarios.CastlingAccepted | test/chesspieces.cpp:93-100 | with rooks on A1 and H1 both castlings are accepted, with their relocation lists |
| Scenarios.QueenGivesCheck | test/chesspieces.cpp:102 | the black queen on E8 gives check along the E file |
| Scenarios.CastlingRefusedInCheck | test/chesspieces.cpp:102-104 | with the queen there the king is in check and neither castling is accepted |
| Scenarios.QueenMisses | lib/chessboard.cpp:66-84 | a black queen sharing neither rank, file nor diagonal with the only king, White's, gives no check |
| Scenarios.QueenOnFile | lib/chessboard.cpp:66-84 | a black queen on the white king's file with nothing between them gives check |
| Scenarios.FormationSafe | lib/chessboard.cpp:66-84 | in a castling formation whose queen shares no line with the king, White is out of check |
| Scenarios.FormationOnFile | lib/chessboard.cpp:66-84 | in a castling formation with the queen above the king on its file and both rooks on the king's rank, White is in check |
| Scenarios.KingProbe | lib/chesspiece.cpp:23 | relocating the king of a formation onto a free square gives the formation with the king there |
| Scenarios.RookAProbe | lib/chesspiece.cpp:23 | relocating a formation's A rook onto a free square gives the formation with that rook there |
| Scenarios.RookHProbe | lib/chesspiece.cpp:23 | relocating a formation's H rook onto a free square gives the formation with that rook there |
| Scenarios.BlackQueenMoves | lib/chessboard.cpp:11-25 | a black queen's step to an empty square with its path clear is accepted, and executing it moves the queen, marked as moved, and records the move |
| Scenarios.ShortCastlingProbes | lib/chesspieces.hpp:67 | with the queen on the eighth rank off the E, F and G files, none of short castling's four probe positions is in check |
| Scenarios.ShortCastlingPasses | test/chesspieces.cpp:105-106 | with the queen there short castling is accepted |
| Scenarios.LongCastlingProbes | lib/chesspieces.hpp:75 | with the queen on the eighth rank off the B to E files, none of long castling's five probe positions is in check |
| Scenarios.LongCastlingPasses | test/chesspieces.cpp:111-113 | with the queen there long castling is accepted |
| Scenarios.QueenWatchesD1 | test/chesspieces.cpp:105-107 | with the queen on D8 the king moved to D1 stands in check |
| Scenarios.LongCastlingCrossesQueenFile | test/chesspieces.cpp:105-107 | so with the queen on D8 long castling is refused |
| Scenarios.CastlingRefusedByFlags | test/chesspieces.cpp:108-116 | a moved H rook refuses short castling and a moved king refuses both |
| Scenarios.QueenStepsToD8 | test/chesspieces.cpp:105 | E8-D8 is accepted, the queen lands on D8, and executing it gives the queen-on-D8 stage with the queen marked |
| Scenarios.MarkedInPlace | test/chesspieces.cpp:108-116 | marking the H rook, then the king, writes the marked piece back on its own square |
| Scenarios.CastlingAfterQueenToD8 | test/chesspieces.cpp:105-110 | E8-D8 is executed; then short castling is accepted and long refused; after marking the H rook both are refused |
| Scenarios.QueenPassesE8 | test/chesspieces.cpp:111 | the queen's path from D8 to F8 is clear once E8 is empty |
| Scenarios.QueenCrossesToF8 | test/chesspieces.cpp:111 | D8-F8 is accepted and executed, leaving the queen marked on F8 |
| Scenarios.CastlingAfterQueenToF8 | test/chesspieces.cpp:111-116 | after D8-F8 short castling stays refused and long is accepted; after marking the king both are refused |

## Left out

- `operator<<` (lib/chessboard.cpp:86-107) and the console program in chess/main.cpp are output and input only.
- The coroutine generator of lib/generator.hpp: `valid_moves` becomes an eager list in the same probe order. The stalemate and checkmate scans stop at the first useful list in the source; the eager list gives the same answers.
- The draw rules are TODOs in the source (lib/chessboard.cpp:30-32) and are not modelled.
- The template and vtable plumbing of `chesspiece` (lib/chess.hpp:150-174) is a match on the piece kind. Compile-time checks such as the `static_assert` on at most five moves become the precondition of `FromMoves`.
- Squares off the board: `pos(int, int)` does no range check, and `operator[]` indexes the array without one. The model's operations require squares on the board, which is where the source's behaviour is defined. The notation constructor ignores the terminating character; the model takes two characters.
- Pieces.EnPassant: the source reads the glyph of the piece on the last move's target without checking that the cell is occupied (lib/chesspieces.hpp:169). This is a defect in the source, and ordinary play reaches it: the check test's probes run on copies where the piece that made the last move has itself been relocated, and a pawn's diagonal probe on such a copy reads the empty cell, which is undefined behaviour. `Scenarios.EnPassantReadsEmptyCell` gives such a position. The model treats an empty cell there as "no en passant".
- Game.RelocateMarked: `mark_as_moved` on an empty cell would be undefined behaviour (lib/chessboard.cpp:20); the model leaves the cell empty. No accepted move relocates from an empty cell.
- Game.ChessBoard.MakeMove: requires that after the relocations of an accepted move a piece stands on the target. Long castling as written does not meet this. The source walks the king on from C to B (lib/chesspieces.hpp:75) and then promotes through the empty cell C (lib/chessboard.cpp:22), which is undefined behaviour. `Game.LongCastlingMissesTarget` and `Game.LandsOnTargetExactly` show that long castling is the only move excluded. By the rules of chess, long castling leaves the king on C; the code moves it on to B (lib/chesspieces.hpp:75), and the model follows the code.
- The model does not prove that executing a valid move leaves the mover out of check. `Validation.ValidLeavesNoCheck` proves it for the copy the validator simulates, but the board `MakeMove` produces differs from that copy in two ways that the check test can see: the piece on the target may have been promoted (lib/chessboard.cpp:22), which changes what it attacks, and the last move is now the executed one (lib/chessboard.cpp:25), which the pawn's en passant rule reads (lib/chesspieces.hpp:168-171). The moved flags that `MakeMove` also sets do not matter: every validation nested in the check test targets an occupied square, while the two rules that read the flag, the double push and castling, need an empty target.
