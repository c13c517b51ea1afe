# A verified model of the JavaChess rules engine

This project models the rules engine of the JavaChess program (`src/com/chess/engine`) in Dafny and proves what its code promises. It covers:

- **Squares and sides.** Tiles are numbered 0..63 from a8 to h1. White moves up the board (direction -1) and Black moves down (+1). Each side has its own promotion rank.
- **Tiles.** A tile is empty or holds one piece. The empty tiles come from a shared cache. A tile prints as `-` or as the piece's letter, lower case for Black.
- **Pieces and their moves.** Each piece class generates its pseudo-legal moves from fixed offset arrays, cut at the board's edges by file exclusions:
  - Pawn: push, double push, diagonal capture, en passant, and a promotion wrapper;
  - Knight: eight L-shaped offsets;
  - Bishop, Rook, Queen: sliding walks;
  - King: single steps, plus the current player's castles.
- **The board.** `ChessBoard.Builder` keeps a mutable square→piece map, the next move maker and the en-passant pawn. Building a board creates the 64 tiles, the two piece lists, the pseudo-legal move lists and the two players. The model also covers the standard starting position and the text rendering.
- **Moves.** The model covers move equality with its one-sided `instanceof` tests, and every `execute`: quiet and capturing moves, pawn jump, en passant, promotion, and both castles. Executing the null move fails. `MoveFactory.createMove` searches for the first move between two squares.
- **Players.** A player's legal moves are the pseudo-legal moves followed by the castles. A player is in check when some opponent move lands on its king. The model covers `makeMove` with its three statuses, the escape-move search, and checkmate and stalemate.

## Modelling notes

- **Form of the model.** The Java loops are methods with loop invariants. Each method is proved equal to a specification function, and the properties are proved about the functions. `ChessBoard.Builder` is a class whose methods modify its fields. Everything else is datatypes, functions and lemmas.
- **Exceptions.** Java exceptions become a `Result` failure:
  - `establishKing` on a side without a king gives `InvalidChessboard`;
  - `choosePlayer` on a missing move maker (Java's null) gives `MissingMoveMaker`;
  - `NullMove.execute` gives `NullMoveExecution`.

  `makeMove`, the escape search, checkmate and stalemate pass these failures on.
- **Move equality.** `Move.equals` with a null-move receiver throws in Java, unless both sides are the same object. The model answers false there.
- **Files outside the model.** `BoardUtils`, `ChessPiece`, `PieceType`, `WhitePlayer`/`BlackPlayer` and `MoveStatus` are not part of this model. The model assumes the following about them:
  - the file and rank tables are index arithmetic: A-file `i % 8 == 0`, eighth rank `i < 8`, and so on;
  - pieces compare by value;
  - a side's player uses that side's piece list, and its opponent is the other player;
  - `ChessBoard`'s constructor passes the white moves first and the black moves second to both `WhitePlayer` and `BlackPlayer`. The model assumes that `BlackPlayer` hands them on to `Player` swapped, with its own (black) moves as `legalMoves` and the white moves as `opponentMoves`. Every statement about Black's legal moves, check, checkmate and stalemate rests on this assumption;
  - `calculateKingCastles` is the parameter `rule: CastleRule`.
- **Pieces.** A piece records both its Java class (`kind`) and the type tag its constructor passed up (`pieceType`). The three-argument constructors all tag the piece BISHOP, so the two can differ.
- **Castles during construction.** While a board is being built it has no current player, so kings add no castles. The model's `BoardView` expresses this.
- **The move's board.** A Java move keeps the board it was generated on. Here that board is passed to `execute`, and every statement assumes it is the board the move is played on.

## Model

| member | source | states |
|---|---|---|
| Alliances.Alliance.Direction | src/com/chess/engine/Alliance.java:13-38 | White's direction is -1 and Black's +1; the direction is -1 exactly for White |
| Alliances.ExactlyOneSide | src/com/chess/engine/Alliance.java:16-46 | exactly one of isWhite and isBlack holds for each side |
| Alliances.PromotionSquaresAreLastRow | src/com/chess/engine/Alliance.java:24-51 | a side's promotion squares are exactly the squares of its last row, those from which one more pawn step leaves the board |
| Alliances.Alliance.ChoosePlayer | src/com/chess/engine/Alliance.java:28-56 | White chooses the white player and Black the black player |
| Alliances.Alliance.Opponent | src/com/chess/engine/board/Move.java:97 | the other side is never the same side |
| Tiles.Tile.GetPiece | src/com/chess/engine/board/ChessTile.java:73-108 | a piece is present exactly on an occupied tile, and it is the tile's own piece; an empty tile gives null |
| Tiles.Tile.ToText | src/com/chess/engine/board/ChessTile.java:63-98 | one character: "-" when empty, otherwise the piece's letter, in lower case exactly for Black |
| Tiles.CreateAllPossibleEmptyTiles | src/com/chess/engine/board/ChessTile.java:15-21 | the cache has exactly the keys 0..63, and key i holds the empty tile of square i |
| Tiles.CreateTile | src/com/chess/engine/board/ChessTile.java:37-39 | a piece gives an occupied tile holding that piece; no piece gives the cached empty tile of a valid square (null off the board); the coordinate is kept |
| Pieces.PieceType.Letter | src/com/chess/engine/pieces/King.java:65-68 | each piece class prints as one upper-case letter |
| Pieces.NewPiece | src/com/chess/engine/pieces/Pawn.java:20-22 | the two-argument constructors tag the piece with its own type and set the first-move flag |
| Pieces.NewPieceWithFlag | src/com/chess/engine/pieces/Queen.java:23-25 | the three-argument constructors tag the piece BISHOP and keep the given flag |
| Pieces.OnlyTwoArgumentKingsAreKings | src/com/chess/engine/pieces/King.java:21-27 | only a King built with two arguments is recognised as a king |
| Moves.MovedPieceIsFresh | src/com/chess/engine/pieces/Pawn.java:111-114 | movePiece gives a new piece of the same class and the mover's side, on the destination, with its own type tag and the first-move flag set again |
| Moves.EqualMovesAgree | src/com/chess/engine/board/Move.java:45-57 | equal moves have the same moved piece, destination and origin; attack moves also the same attacked piece, castles the same rook |
| Moves.AgreeingMovesAreEqual | src/com/chess/engine/board/Move.java:137-147 | conversely, moves of one class that agree on those fields are equal |
| Moves.EqualityIsNotSymmetric | src/com/chess/engine/board/Move.java:208-232 | a pawn capture equals the en-passant capture with the same data, but not the other way round |
| Moves.PawnMoveEqualsPawnJump | src/com/chess/engine/board/Move.java:188-191 | a pawn push and a pawn jump with the same data are equal both ways |
| BoardViews.MajorStepShape | src/com/chess/engine/pieces/Knight.java:43-52 | one candidate square gives at most one move: a MajorMove onto an empty square or a MajorAttackMove on an opponent's piece, and nothing exactly when a friendly piece is there |
| Pawns.CalculateLegalMoves | src/com/chess/engine/pieces/Pawn.java:28-105 | the loop over the offsets 7, 8, 9 and 16 computes the pawn's moves in offset order |
| Pawns.CandidateMovesSound | src/com/chess/engine/pieces/Pawn.java:32-102 | each offset gives at most one move, and it is a push, jump, capture or en-passant capture of this pawn, promotion-wrapped exactly on a promotion square |
| Pawns.LegalMovesSound | src/com/chess/engine/pieces/Pawn.java:29-105 | every pawn move is one of those shapes, and there are at most four |
| Pawns.PushesAreLegal | src/com/chess/engine/pieces/Pawn.java:40-54 | the single push onto an empty square is generated, and so is the double push of a first-move pawn on its starting rank with both squares empty |
| Pawns.ForwardDiagonalIsCandidate | src/com/chess/engine/pieces/Pawn.java:56-82 | every forward diagonal square is reached by offset 7 or 9 without hitting that offset's file exclusion |
| Pawns.CapturesAreLegal | src/com/chess/engine/pieces/Pawn.java:56-101 | an opponent's piece on a forward diagonal is captured, and an opponent's en-passant pawn beside the pawn is taken onto the empty diagonal |
| Pawns.GetPromotionPiece | src/com/chess/engine/pieces/Pawn.java:107-109 | a Queen of the pawn's side on the pawn's square, tagged BISHOP and not first-move |
| Knights.CalculateLegalMoves | src/com/chess/engine/pieces/Knight.java:28-56 | the loop over the eight offsets computes the knight's moves in offset order |
| Knights.ExclusionsAreExactlyTheWraps | src/com/chess/engine/pieces/Knight.java:76-89 | within the board, an offset survives the four file exclusions exactly when it is a genuine L-shaped jump |
| Knights.JumpIsCandidate | src/com/chess/engine/pieces/Knight.java:18 | every L-shaped jump is one of the eight offsets |
| Knights.LegalMovesAreJumps | src/com/chess/engine/pieces/Knight.java:33-55 | every knight move is an L-shaped jump on the board, onto an empty square or capturing an opponent; at most eight |
| Knights.JumpsAreLegalMoves | src/com/chess/engine/pieces/Knight.java:36-52 | every L-shaped jump onto an empty square or an opponent's piece is generated |
| Sliding.CalculateSlidingMoves | src/com/chess/engine/pieces/Bishop.java:28-70 | the nested loops that Bishop, Rook and Queen share compute the walks along the vectors in order |
| Sliding.WalkShape | src/com/chess/engine/pieces/Bishop.java:39-59 | a walk is a run of MajorMoves onto empty squares, one step apart, ended by at most one capture of an opponent's piece |
| Sliding.WalkOnRay | src/com/chess/engine/pieces/Bishop.java:39-47 | when the exclusion guards the edges, every square a walk reaches lies on the straight ray from its start |
| Sliding.WalkDependsOnlyOnExclusion | src/com/chess/engine/pieces/Queen.java:34-38 | two exclusion predicates that agree on a vector give the same walk along it |
| Sliding.SlidingMovesOnRays | src/com/chess/engine/pieces/Rook.java:33-60 | every sliding move is a major step of the piece onto a square on one of its rays |
| Sliding.WalkReached | src/com/chess/engine/pieces/Bishop.java:34-58 | under edge guards, move k of a walk goes to square k + 1 along the vector, reached without wrapping and with every square before it empty |
| Sliding.ReachedIsWalked | src/com/chess/engine/pieces/Bishop.java:34-58 | conversely, every square reached that way is walked to: a MajorMove when empty, a MajorAttackMove when an opponent's piece is there |
| Sliding.SlidingMovesReached | src/com/chess/engine/pieces/Bishop.java:32-59 | every sliding move goes to a square reached along one of the vectors without wrapping and with every square before it empty |
| Sliding.ReachedAreSlidingMoves | src/com/chess/engine/pieces/Bishop.java:32-59 | every square reached that way along one of the vectors, when empty or held by an opponent, gives a move in the sliding list |
| Bishops.CalculateLegalMoves | src/com/chess/engine/pieces/Bishop.java:28-70 | the bishop's loops compute its walks along -9, -7, 7 and 9 |
| Bishops.ExclusionsGuardEdges | src/com/chess/engine/pieces/Bishop.java:82-87 | for each diagonal vector and each square whose next square is on the board, the A-file and H-file exclusions fire exactly when that step would wrap around an edge |
| Bishops.LegalMovesAreDiagonal | src/com/chess/engine/pieces/Bishop.java:18-59 | every bishop move is a MajorMove onto an empty square or a capture of an opponent's piece, on a diagonal, reached along one of the four vectors without wrapping and with every square before it empty |
| Bishops.ReachedSquaresAreLegalMoves | src/com/chess/engine/pieces/Bishop.java:32-59 | every square the bishop reaches along a vector without wrapping over empty squares gives a move: a MajorMove when empty, a MajorAttackMove when held by an opponent |
| Rooks.CalculateLegalMoves | src/com/chess/engine/pieces/Rook.java:28-62 | the rook's loops compute its walks along -8, -1, 1 and 8 |
| Rooks.ExclusionsGuardEdges | src/com/chess/engine/pieces/Rook.java:74-79 | for each orthogonal vector and each square whose next square is on the board, the exclusions fire exactly when the step would wrap: -1 from the A-file and +1 from the H-file |
| Rooks.LegalMovesAreOrthogonal | src/com/chess/engine/pieces/Rook.java:17-56 | every rook move is a MajorMove onto an empty square or a capture of an opponent's piece, on its rank or file, reached along one of the four vectors without wrapping and with every square before it empty |
| Rooks.ReachedSquaresAreLegalMoves | src/com/chess/engine/pieces/Rook.java:31-56 | every square the rook reaches along a vector without wrapping over empty squares gives a move: a MajorMove when empty, a MajorAttackMove when held by an opponent |
| Queens.CalculateLegalMoves | src/com/chess/engine/pieces/Queen.java:27-58 | the queen's loops compute its walks along all eight vectors |
| Queens.ExclusionsGuardEdges | src/com/chess/engine/pieces/Queen.java:70-75 | for each of the eight vectors and each square whose next square is on the board, the exclusions fire exactly when the step would wrap around an edge |
| Queens.ExclusionsMatchBishopAndRook | src/com/chess/engine/pieces/Queen.java:70-75 | on the diagonal vectors the queen's exclusions are the bishop's, and on the orthogonal ones the rook's |
| Queens.RayMatches | src/com/chess/engine/pieces/Queen.java:34-54 | a queen walk along a vector equals the walk under any exclusion that agrees on that vector |
| Queens.RaysMatch | src/com/chess/engine/pieces/Queen.java:17-56 | the queen's eight walks are the bishop's four and the rook's four from its square, interleaved |
| Queens.LegalMovesAreBishopAndRookMoves | src/com/chess/engine/pieces/Queen.java:28-58 | a move is a queen move exactly when it is a bishop move or a rook move of that piece |
| Queens.LegalMovesAreLines | src/com/chess/engine/pieces/Queen.java:32-56 | every queen move is a major step along a diagonal or an orthogonal line, reached along one of the eight vectors without wrapping and with every square before it empty |
| Queens.ReachedSquaresAreLegalMoves | src/com/chess/engine/pieces/Queen.java:32-56 | every square the queen reaches along a vector without wrapping over empty squares gives a move: a MajorMove when empty, a MajorAttackMove when held by an opponent |
| Kings.CalculateLegalMoves | src/com/chess/engine/pieces/King.java:29-58 | the loop over the eight offsets, then the castles, computes the king's moves |
| Kings.ExclusionsAreExactlyTheWraps | src/com/chess/engine/pieces/King.java:70-75 | within the board, an offset is excluded exactly when it does not reach a neighbouring square |
| Kings.NeighbourIsCandidate | src/com/chess/engine/pieces/King.java:19 | every neighbouring square is reached by one of the eight offsets |
| Kings.StepMovesAreAdjacent | src/com/chess/engine/pieces/King.java:34-53 | every single step is a major step onto a neighbouring square; at most eight |
| Kings.NeighboursAreStepMoves | src/com/chess/engine/pieces/King.java:40-50 | every neighbour that is empty or holds an opponent's piece is a step |
| Kings.CastlesAppendedOnlyWithCurrentPlayer | src/com/chess/engine/pieces/King.java:54-56 | without a current player the king has only its steps; with one, its steps followed by that player's castles |
| Players.AttacksOnTile | src/com/chess/engine/player/Player.java:48-56 | the moves landing on the square are exactly those of the list that land there |
| Players.CalculateAttacksOnTile | src/com/chess/engine/player/Player.java:48-56 | the loop computes that list |
| Players.FirstKing | src/com/chess/engine/player/Player.java:58-65 | a king is found exactly when some active piece is tagged KING, and it is the first such piece |
| Players.EstablishKing | src/com/chess/engine/player/Player.java:58-65 | the loop returns the first king, and fails with "not a valid Chessboard" when there is none |
| Players.NewPlayer | src/com/chess/engine/player/Player.java:23-31 | fails exactly when there is no king; the legal moves are the given moves followed by the castles; in check exactly when an opponent move lands on the king's square |
| Players.CreatePlayer | src/com/chess/engine/player/Player.java:23-31 | the constructor's steps compute that player |
| Players.LegalMoveMatchesAListedMove | src/com/chess/engine/player/Player.java:70-72 | a legal move agrees with a listed move on piece, origin and destination |
| Players.ListedMovesAreLegal | src/com/chess/engine/player/Player.java:70-72 | every listed move is legal, since a move always equals itself; the null move is legal exactly when it is listed |
| Boards.GameBoard | src/com/chess/engine/board/ChessBoard.java:109-115 | 64 tiles; tile i has coordinate i and holds the piece mapped to i, or is empty when none is |
| Boards.CreateGameBoard | src/com/chess/engine/board/ChessBoard.java:109-115 | the loop over the tile array computes that board |
| Boards.ActivePiecesMembers | src/com/chess/engine/board/ChessBoard.java:86-97 | a piece is listed exactly when it stands on some tile and belongs to the side |
| Boards.CalculateActivePieces | src/com/chess/engine/board/ChessBoard.java:86-97 | the loop computes that list, in tile order |
| Boards.CalculatePieceMoves | src/com/chess/engine/board/ChessBoard.java:81 | a piece's moves come from its own class's generator |
| Boards.CalculateLegalMoves | src/com/chess/engine/board/ChessBoard.java:78-84 | the loop computes every piece's moves, piece by piece |
| Boards.PieceMovesStayOnBoard | src/com/chess/engine/board/ChessBoard.java:80-82 | while the board is being built, every move a piece on the board generates moves that piece and lands on the board |
| Boards.AllPieceMovesStayOnBoard | src/com/chess/engine/board/ChessBoard.java:78-84 | the same for the whole list of a side |
| Boards.Board.CurrentPlayer | src/com/chess/engine/board/ChessBoard.java:33 | the current player is the white player exactly when White is to move, and it has the move maker's side |
| Boards.Board.GetAllLegalMoves | src/com/chess/engine/board/ChessBoard.java:160-162 | the white legal moves followed by the black legal moves, nothing else |
| Boards.KingFound | src/com/chess/engine/player/Player.java:58-65 | establishKing finds a king exactly when some tile holds a piece of that side tagged KING |
| Boards.BuildBoard | src/com/chess/engine/board/ChessBoard.java:24-34 | no white king fails, then no black king fails, then no move maker fails; otherwise the board has the map's tiles, the builder's en-passant pawn and move maker, and consistent piece lists and players |
| Boards.BuiltPlayers | src/com/chess/engine/board/ChessBoard.java:29-32 | each player is the Player constructor on its side's generated moves and the opponent's |
| Boards.Builder.constructor | src/com/chess/engine/board/ChessBoard.java:174-176 | an empty map, no move maker, no en-passant pawn |
| Boards.Builder.SetPiece | src/com/chess/engine/board/ChessBoard.java:178-181 | the piece is mapped at its own square, replacing what was there; nothing else changes |
| Boards.Builder.SetMoveMaker | src/com/chess/engine/board/ChessBoard.java:183-186 | only the move maker changes |
| Boards.Builder.SetEnPassantPawn | src/com/chess/engine/board/ChessBoard.java:192-194 | only the en-passant pawn changes |
| Boards.Builder.Build | src/com/chess/engine/board/ChessBoard.java:188-190 | the ChessBoard constructor's steps on the builder's state give the board described above |
| Boards.StandardConfig | src/com/chess/engine/board/ChessBoard.java:119-158 | pieces exactly on squares 0..15 and 48..63, each the standard piece of its square |
| Boards.StandardPiece | src/com/chess/engine/board/ChessBoard.java:122-154 | the standard piece of a square stands on that square |
| Boards.StandardRank | src/com/chess/engine/board/ChessBoard.java:122-154 | the eight squares of a rank and their standard pieces |
| Boards.RankPlaced | src/com/chess/engine/board/ChessBoard.java:122-129 | eight setPiece calls along a rank add that rank to the map |
| Boards.SetBlackBackRank | src/com/chess/engine/board/ChessBoard.java:122-129 | the first eight setPiece calls add Black's back rank |
| Boards.SetBlackPawnRank | src/com/chess/engine/board/ChessBoard.java:130-137 | the next eight add Black's pawns |
| Boards.SetWhitePawnRank | src/com/chess/engine/board/ChessBoard.java:139-146 | the next eight add White's pawns |
| Boards.SetWhiteBackRank | src/com/chess/engine/board/ChessBoard.java:147-154 | the last eight add White's back rank |
| Boards.StandardConfigByRanks | src/com/chess/engine/board/ChessBoard.java:122-154 | the four ranks together are the standard map |
| Boards.CreateStandardBoard | src/com/chess/engine/board/ChessBoard.java:119-158 | the 32 setPiece calls and White to move build the standard board |
| Boards.PadLeft3 | src/com/chess/engine/board/ChessBoard.java:46 | `%3s`: at least three characters, the text right-aligned after spaces |
| Boards.RowCount | src/com/chess/engine/board/ChessBoard.java:47-49 | the arithmetic step behind the 3n + n / 8 length of BoardText: n / 8 grows by one from n - 1 to n exactly when n is a multiple of 8, so a newline follows every eighth tile |
| Boards.BoardText | src/com/chess/engine/board/ChessBoard.java:41-52 | the text of n tiles has 3n + n/8 characters |
| Boards.BoardTextLayout | src/com/chess/engine/board/ChessBoard.java:44-50 | tile i is printed as two spaces and its character at 3i + i/8, and each row ends with a newline |
| Boards.ToString | src/com/chess/engine/board/ChessBoard.java:41-52 | the loop computes that text, 200 characters for the 64 tiles |
| Execution.PlaceAllLookup | src/com/chess/engine/board/ChessBoard.java:178-180 | after a run of setPiece calls, a square holds the last piece placed on it, or what it held before |
| Execution.PlacePieces | src/com/chess/engine/board/Move.java:88-95 | the copy loops put every piece except the skipped ones into the builder's map, in order |
| Execution.ExecuteMove | src/com/chess/engine/board/Move.java:86-100 | the null move fails; a new board goes to the opponent; it has an en-passant pawn exactly after a pawn jump, the jumped pawn on its new square |
| Execution.Execute | src/com/chess/engine/board/Move.java:86-98 | execute dispatches on the move's class and computes that board |
| Execution.ExecuteBase | src/com/chess/engine/board/Move.java:86-98 | base execute's loops and builder calls compute that board |
| Execution.ExecuteEnPassant | src/com/chess/engine/board/Move.java:235-250 | en-passant execute's loops and builder calls compute that board |
| Execution.ExecuteJump | src/com/chess/engine/board/Move.java:268-283 | pawn-jump execute's loops and builder calls compute that board |
| Execution.ExecuteCastle | src/com/chess/engine/board/Move.java:366-382 | castle execute's loops and builder calls compute that board |
| Execution.ExecutePromotion | src/com/chess/engine/board/Move.java:307-321 | promotion execute runs the wrapped move, then rebuilds with the queen |
| Execution.BaseExecuteSquares | src/com/chess/engine/board/Move.java:86-100 | afterwards the destination holds the moved copy, overwriting any capture; the mover's old square is empty; every other square is unchanged |
| Execution.EnPassantSquares | src/com/chess/engine/board/Move.java:235-250 | the same, and the captured pawn's own square is emptied too |
| Execution.CastleSquares | src/com/chess/engine/board/Move.java:366-382 | the rook's destination holds a new rook and the king's destination the moved king; the king's and rook's old squares are empty; the rest is unchanged |
| Execution.PromotionSquares | src/com/chess/engine/board/Move.java:307-321 | the destination holds a new Queen of the pawn's side; every other square is as the wrapped move left it |
| Execution.BaseCaptureDisappears | src/com/chess/engine/board/Move.java:93-96 | a piece captured on the destination is on no tile afterwards |
| Execution.EnPassantCaptureDisappears | src/com/chess/engine/board/Move.java:242-246 | for an en-passant capture by the side to move, the pawn taken is on no tile afterwards |
| Execution.PromotionKeepsAbsent | src/com/chess/engine/board/Move.java:315-318 | a piece that the wrapped move removed stays removed after the promotion |
| Execution.CapturedPieceDisappears | src/com/chess/engine/board/Move.java:86-321 | for a capture by the side to move of an opponent's piece, the captured piece is on no tile afterwards and not among the opponent's active pieces |
| Execution.FirstMatch | src/com/chess/engine/board/Move.java:474-480 | the first listed move from the origin to the destination, or the null move when there is none |
| Execution.CreateMove | src/com/chess/engine/board/Move.java:470-481 | the search loop over getAllLegalMoves computes that move |
| Play.TransitionKeepsItsParts | src/com/chess/engine/player/MoveTransition.java:12-23 | the getters return exactly the board and the status the transition was built with |
| Play.MakeMove | src/com/chess/engine/player/Player.java:102-118 | an illegal move gives ILLEGAL_MOVE on the old board; a failed execute fails; leaving the king attacked gives LEAVES_PLAYER_IN_CHECK on the old board; otherwise DONE on the executed board |
| Play.EscapeAmong | src/com/chess/engine/player/Player.java:86-94 | true means some move gives DONE; false exactly when no move does; a failure comes from some move's failure |
| Play.HasEscapeMoves | src/com/chess/engine/player/Player.java:86-94 | the loop over the legal moves computes that answer |
| Play.IsInCheckMate | src/com/chess/engine/player/Player.java:78-80 | true exactly when in check and no legal move escapes; false when not in check |
| Play.IsInStaleMate | src/com/chess/engine/player/Player.java:82-84 | true exactly when not in check and no legal move escapes; false when in check |
| Play.MateAndStaleMateExclusive | src/com/chess/engine/player/Player.java:78-84 | checkmate and stalemate never both hold |
| Play.CheckMateMeansNoMoveHelps | src/com/chess/engine/player/Player.java:78-118 | when checkmated, the side is in check and every legal move executes but leaves its king attacked |
| StandardPosition.StandardGameBoard | src/com/chess/engine/board/ChessBoard.java:119-158 | the standard board's tiles: Black's pieces on 0..15, White's on 48..63, squares 16..47 empty |
| StandardPosition.StandardActivePieces | src/com/chess/engine/board/ChessBoard.java:26-27 | White's list is the pawns 48..55 and then the back rank 56..63; Black's is the back rank 0..7 and then the pawns 8..15 |
| StandardPosition.StandardBoardBuilds | src/com/chess/engine/board/ChessBoard.java:156-157 | the standard board builds, and White is the current player |
| StandardPosition.StandardKings | src/com/chess/engine/player/Player.java:58-65 | establishKing on the standard piece lists finds the king on e1 for White and on e8 for Black |
| StandardPosition.StandardBoardShape | src/com/chess/engine/board/ChessBoard.java:24-33 | the standard board's tiles and piece lists, White to move, and each side's move list equal to its pieces' opening moves |
| StandardPosition.StandardWhitePlayer | src/com/chess/engine/player/Player.java:23-31 | White's king is on e1; its legal moves are its opening moves followed by the castles; it is in check exactly when a black opening move lands on e1 |
| StandardPosition.StandardBlackPlayer | src/com/chess/engine/player/Player.java:23-31 | Black's king is on e8; its legal moves are its opening moves followed by the castles; it is in check exactly when a white opening move lands on e8 |
| StandardPosition.PawnOpening | src/com/chess/engine/pieces/Pawn.java:40-54 | a pawn on its starting rank has exactly its single push and its double push |
| StandardPosition.KnightOpening | src/com/chess/engine/pieces/Knight.java:33-55 | each knight has exactly its two jumps towards the centre |
| StandardPosition.KingOpening | src/com/chess/engine/pieces/King.java:34-57 | the king has no move |
| StandardPosition.BishopOpening | src/com/chess/engine/pieces/Bishop.java:33-59 | the bishops have no move |
| StandardPosition.RookOpening | src/com/chess/engine/pieces/Rook.java:33-56 | the rooks have no move |
| StandardPosition.QueenOpening | src/com/chess/engine/pieces/Queen.java:32-54 | the queens have no move |
| StandardPosition.PieceOpening | src/com/chess/engine/board/ChessBoard.java:80-82 | every standard piece generates exactly its opening moves |
| StandardPosition.StandardPieceMoves | src/com/chess/engine/board/ChessBoard.java:29-30 | each side's move list is its pieces' opening moves in tile order |
| StandardPosition.OpeningCounts | src/tests/com/chess/engine/board/ChessBoardTest.java:12-13 | twenty opening moves per side; White's land on squares 32..47 and Black's on 16..31 |
| StandardPosition.StandardBoardFacts | src/tests/com/chess/engine/board/ChessBoardTest.java:12-22 | White moves first against Black. Each side has its twenty opening moves plus the rule's castles. The kings are on 60 and 4. Neither side is in check, so neither is checkmated. |

## Left out

- `TakenPiecesPanel` is Swing layout and image loading with no engine logic, so it is left out.
- The `hashCode` methods are Java int hashing that the engine's logic never reads, so only equality is modelled.
- Move `toString` and `getPositionAtCoordinate` depend on `BoardUtils` tables that are not part of this model. The player `toString` and `isCastled` belong to `WhitePlayer`/`BlackPlayer`, which are not either.
- `calculateKingCastles` is abstract here, so castling eligibility is a parameter. The standard board's count is therefore stated as 20 plus the rule's castles. The commented-out castle-capability assertions of the test are not modelled.
- The Java move's `board` field is not modelled. Every execute takes the board as a parameter. The model therefore cannot state what happens when a move is executed on a board other than the one it was generated on.
- The `isFirstMove` field of `Move` is set in the constructor but never read, so it is left out.
- The `(Pawn)` casts in `PawnJump.execute` and in the `PawnPromotion` constructor are not modelled. They throw only for moves that the pawn's own `calculateLegalMoves` never builds.
- Identity (`this == other`) in `Move.equals` and in the move-legality test is modelled as value equality. Move objects that are equal in value but distinct would compare differently in Java only in the null-move case. There the model answers by value.
- Pawns.CalculateLegalMoves: the two diagonal branches of the source are one function with a parameter for the en-passant square. They behave as the two copies in the source do.
- Sliding.CalculateSlidingMoves: Bishop, Rook and Queen share one loop, passing their own vectors and exclusions. The three copies in the source differ only in those.
- Execution.CapturedPieceDisappears: it is stated only for a capture made by the side to move, where the moved piece belongs to the side to move and the captured piece to its opponent. Every `execute` copies pieces by `this.board.currentPlayer()` and its opponent (Move.java:88-95, 237-246). So a capture played by the side not to move leaves the moved piece on its origin, and after en passant the taken pawn stays too. Both sides' capture lists are generated on every board, so such moves exist; the lemma says nothing about them.
- Execution.EnPassantCaptureDisappears: it is stated only when the taken pawn belongs to the opponent of the side to move, for the same reason. When the side not to move plays en passant, the taken pawn belongs to the side to move, whose copy loop puts it back; only the opponent's loop skips the attacked piece.
- Guava's immutable lists and `Iterables`, and `HashMap`, are modelled as Dafny sequences and maps.
