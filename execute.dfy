/**
 * Move.execute in all its variants (Move.java) and MoveFactory.createMove. Every execute fills a fresh
 * builder from the origin board's piece lists, skipping the pieces the move takes away, and builds.
 */
module Execution {
  import opened Wrappers
  import opened Squares
  import opened Alliances
  import opened Pieces
  import opened Tiles
  import opened Moves
  import opened Players
  import opened Boards
  import Pawns

  /** The pieces of a list standing on one square, in list order. */
  function At(pieces: seq<Piece>, coordinate: int): seq<Piece>
  {
    if pieces == [] then []
    else
      var last := pieces[|pieces| - 1];
      At(pieces[..|pieces| - 1], coordinate) + (if last.piecePosition == coordinate then [last] else [])
  }

  /** A piece list with the pieces a loop's `equals` test skips left out, in list order. */
  function Without(pieces: seq<Piece>, skipped: set<Piece>): (kept: seq<Piece>)
    ensures |kept| <= |pieces|
  {
    if pieces == [] then []
    else
      var last := pieces[|pieces| - 1];
      Without(pieces[..|pieces| - 1], skipped) + (if last in skipped then [] else [last])
  }

  /** setPiece called on each piece of a list in turn. */
  function PlaceAll(boardConfig: map<int, Piece>, pieces: seq<Piece>): (placed: map<int, Piece>)
    ensures Keyed(boardConfig) ==> Keyed(placed)
  {
    if pieces == [] then boardConfig
    else
      var last := pieces[|pieces| - 1];
      PlaceAll(boardConfig, pieces[..|pieces| - 1])[last.piecePosition := last]
  }

  /** After the loop the square holds the last listed piece standing on it, or what it held before. */
  lemma {:induction false} PlaceAllLookup(boardConfig: map<int, Piece>, pieces: seq<Piece>, coordinate: int)
    ensures var here := At(pieces, coordinate);
            Lookup(PlaceAll(boardConfig, pieces), coordinate) == if here == [] then Lookup(boardConfig, coordinate) else Some(here[|here| - 1])
  {
    if pieces != [] {
      PlaceAllLookup(boardConfig, pieces[..|pieces| - 1], coordinate);
    }
  }

  lemma AtSnoc(pieces: seq<Piece>, piece: Piece, coordinate: int)
    ensures At(pieces + [piece], coordinate) == At(pieces, coordinate) + (if piece.piecePosition == coordinate then [piece] else [])
  {
    assert (pieces + [piece])[..|pieces|] == pieces;
  }

  lemma WithoutSnoc(pieces: seq<Piece>, piece: Piece, skipped: set<Piece>)
    ensures Without(pieces + [piece], skipped) == Without(pieces, skipped) + (if piece in skipped then [] else [piece])
  {
    assert (pieces + [piece])[..|pieces|] == pieces;
  }

  /** Skipping pieces and picking a square commute. */
  lemma {:induction false} AtWithout(pieces: seq<Piece>, skipped: set<Piece>, coordinate: int)
    ensures At(Without(pieces, skipped), coordinate) == Without(At(pieces, coordinate), skipped)
  {
    if pieces != [] {
      var n := |pieces|;
      var prefix := pieces[..n - 1];
      var last := pieces[n - 1];
      assert pieces == prefix + [last];
      AtWithout(prefix, skipped, coordinate);
      WithoutSnoc(prefix, last, skipped);
      AtSnoc(prefix, last, coordinate);
      var keptBefore := Without(prefix, skipped);
      if last !in skipped {
        assert Without(pieces, skipped) == keptBefore + [last];
        AtSnoc(keptBefore, last, coordinate);
      } else {
        assert Without(pieces, skipped) == keptBefore + [];
        assert keptBefore + [] == keptBefore;
      }
      if last.piecePosition == coordinate {
        assert At(pieces, coordinate) == At(prefix, coordinate) + [last];
        WithoutSnoc(At(prefix, coordinate), last, skipped);
        if last in skipped {
          assert Without(At(prefix, coordinate), skipped) + [] == Without(At(prefix, coordinate), skipped);
        }
      } else {
        assert At(pieces, coordinate) == At(prefix, coordinate) + [];
        assert At(prefix, coordinate) + [] == At(prefix, coordinate);
        if last !in skipped {
          assert At(keptBefore, coordinate) + [] == At(keptBefore, coordinate);
        }
      }
    }
  }

  /**
   * On a board whose every piece stands on its own tile, the piece list of a side holds, on each
   * square, exactly the piece of that side on the tile, or nothing.
   */
  lemma {:induction false} ActiveAt(gameBoard: seq<Tile>, alliance: Alliance, coordinate: int)
    requires forall i :: 0 <= i < |gameBoard| && gameBoard[i].IsTileOccupied() ==> gameBoard[i].pieceOnTile.piecePosition == i
    ensures At(ActivePieces(gameBoard, alliance), coordinate) ==
              if 0 <= coordinate < |gameBoard| && gameBoard[coordinate].IsTileOccupied() &&
                 gameBoard[coordinate].pieceOnTile.pieceAlliance == alliance
              then [gameBoard[coordinate].pieceOnTile] else []
  {
    if gameBoard != [] {
      var n := |gameBoard|;
      var prefix := gameBoard[..n - 1];
      assert forall i :: 0 <= i < |prefix| && prefix[i].IsTileOccupied() ==> prefix[i].pieceOnTile.piecePosition == i by {
        forall i | 0 <= i < |prefix| ensures prefix[i] == gameBoard[i] { }
      }
      ActiveAt(prefix, alliance, coordinate);
      var last := gameBoard[n - 1];
      var rest := ActivePieces(prefix, alliance);
      if last.IsTileOccupied() && last.pieceOnTile.pieceAlliance == alliance {
        assert last.pieceOnTile.piecePosition == n - 1;
        assert At(ActivePieces(gameBoard, alliance), coordinate) ==
               At(rest, coordinate) + (if n - 1 == coordinate then [last.pieceOnTile] else []) by {
          assert ActivePieces(gameBoard, alliance) == rest + [last.pieceOnTile];
          AtSnoc(rest, last.pieceOnTile, coordinate);
        }
      } else {
        assert At(ActivePieces(gameBoard, alliance), coordinate) == At(rest, coordinate) by {
          assert ActivePieces(gameBoard, alliance) == rest;
        }
      }
      if 0 <= coordinate < n - 1 {
        assert prefix[coordinate] == gameBoard[coordinate];
      }
    }
  }

  /**
   * The map an execute fills: the pieces of the origin board's current player except `skippedMine`,
   * then the opponent's pieces except `skippedTheirs`, then the pieces the move places.
   */
  function Rebuilt(b: Board, skippedMine: set<Piece>, skippedTheirs: set<Piece>, placed: seq<Piece>): (boardConfig: map<int, Piece>)
    ensures Keyed(boardConfig)
  {
    var mover := b.CurrentPlayer().alliance;
    PlaceAll(PlaceAll(PlaceAll(map[], Without(b.ActivePiecesOf(mover), skippedMine)),
                      Without(b.ActivePiecesOf(mover.Opponent()), skippedTheirs)), placed)
  }

  /**
   * move.execute() on the board the move was generated on. The new board always goes to the opponent,
   * and only a pawn jump leaves an en-passant pawn behind, the jumped pawn on its new square.
   */
  function ExecuteMove(b: Board, m: Move, rule: CastleRule): (r: Result<Board>)
    ensures m.NullMove? ==> r == Failure(NullMoveExecution)
    ensures r.Success? ==> r.value.Valid() && m.GetMovedPiece().Some?
    ensures r.Success? && b.Valid() ==> r.value.nextMoveMaker == b.nextMoveMaker.Opponent()
    ensures r.Success? ==> (r.value.enPassantPawn.Some? <==> m.PawnJump?)
    ensures r.Success? && m.PawnJump? ==> r.value.enPassantPawn == Some(MovePiece(m.movedPiece, m))
    decreases m
  {
    var opponent := b.CurrentPlayer().alliance.Opponent();
    match m
    case NullMove => Failure(NullMoveExecution)
    case PawnEnPassantAttack(movedPiece, _, attackedPiece) =>
      BuildBoard(Rebuilt(b, {movedPiece}, {attackedPiece}, [MovePiece(movedPiece, m)]), Some(opponent), None, rule)
    case PawnJump(movedPiece, _) =>
      var movedPawn := MovePiece(movedPiece, m);
      BuildBoard(Rebuilt(b, {movedPiece}, {}, [movedPawn]), Some(opponent), Some(movedPawn), rule)
    case PawnPromotion(decoratedMove) =>
      var pawnMoved := ExecuteMove(b, decoratedMove, rule);
      if pawnMoved.Failure? then Failure(pawnMoved.error)
      else
        var pawnMovedBoard := pawnMoved.value;
        var queen := MovePiece(Pawns.GetPromotionPiece(decoratedMove.GetMovedPiece().value), m);
        BuildBoard(Rebuilt(pawnMovedBoard, {}, {}, [queen]), Some(pawnMovedBoard.CurrentPlayer().alliance), None, rule)
    case KingSideCastleMove(movedPiece, _, castleRook, _, castleRookDestination) =>
      var rook := NewPiece(Rook, castleRook.pieceAlliance, castleRookDestination);
      BuildBoard(Rebuilt(b, {movedPiece, castleRook}, {}, [MovePiece(movedPiece, m), rook]), Some(opponent), None, rule)
    case QueenSideCastleMove(movedPiece, _, castleRook, _, castleRookDestination) =>
      var rook := NewPiece(Rook, castleRook.pieceAlliance, castleRookDestination);
      BuildBoard(Rebuilt(b, {movedPiece, castleRook}, {}, [MovePiece(movedPiece, m), rook]), Some(opponent), None, rule)
    case _ =>
      BuildBoard(Rebuilt(b, {m.movedPiece}, {}, [MovePiece(m.movedPiece, m)]), Some(opponent), None, rule)
  }

  lemma PlaceAllSnoc(boardConfig: map<int, Piece>, pieces: seq<Piece>, piece: Piece)
    ensures PlaceAll(boardConfig, pieces + [piece]) == PlaceAll(boardConfig, pieces)[piece.piecePosition := piece]
  {
    assert (pieces + [piece])[..|pieces|] == pieces;
  }

  lemma PlaceOne(boardConfig: map<int, Piece>, piece: Piece)
    ensures PlaceAll(boardConfig, [piece]) == boardConfig[piece.piecePosition := piece]
  {
    assert [piece][..0] == [];
  }

  lemma PlaceTwo(boardConfig: map<int, Piece>, first: Piece, second: Piece)
    ensures PlaceAll(boardConfig, [first, second]) == boardConfig[first.piecePosition := first][second.piecePosition := second]
  {
    assert [first, second][..1] == [first];
    PlaceOne(boardConfig, first);
  }

  /** One of the loops of an execute: setPiece on every listed piece the loop's guard does not skip. */
  method PlacePieces(builder: Builder, pieces: seq<Piece>, skipped: set<Piece>)
    requires builder.Valid()
    modifies builder
    ensures builder.Valid()
    ensures builder.boardConfig == PlaceAll(old(builder.boardConfig), Without(pieces, skipped))
    ensures builder.nextMoveMaker == old(builder.nextMoveMaker) && builder.enPassantPawn == old(builder.enPassantPawn)
  {
    for i := 0 to |pieces|
      invariant builder.Valid()
      invariant builder.boardConfig == PlaceAll(old(builder.boardConfig), Without(pieces[..i], skipped))
      invariant builder.nextMoveMaker == old(builder.nextMoveMaker) && builder.enPassantPawn == old(builder.enPassantPawn)
    {
      var piece := pieces[i];
      WithoutSnoc(pieces[..i], piece, skipped);
      assert pieces[..i + 1] == pieces[..i] + [piece];
      if piece !in skipped {
        PlaceAllSnoc(old(builder.boardConfig), Without(pieces[..i], skipped), piece);
        builder.SetPiece(piece);
      } else {
        assert Without(pieces[..i], skipped) + [] == Without(pieces[..i], skipped);
      }
    }
    assert pieces[..|pieces|] == pieces;
  }

  /** Move.execute, dispatched on the move's class. */
  method Execute(b: Board, m: Move, rule: CastleRule) returns (r: Result<Board>)
    ensures r == ExecuteMove(b, m, rule)
    decreases m, 1
  {
    match m
    case NullMove => r := Failure(NullMoveExecution);
    case PawnEnPassantAttack(_, _, _) => r := ExecuteEnPassant(b, m, rule);
    case PawnJump(_, _) => r := ExecuteJump(b, m, rule);
    case PawnPromotion(_) => r := ExecutePromotion(b, m, rule);
    case KingSideCastleMove(_, _, _, _, _) => r := ExecuteCastle(b, m, rule);
    case QueenSideCastleMove(_, _, _, _, _) => r := ExecuteCastle(b, m, rule);
    case _ => r := ExecuteBase(b, m, rule);
  }

  /** The base Move.execute, inherited by MajorMove, MajorAttackMove, PawnMove and PawnAttackMove. */
  method ExecuteBase(b: Board, m: Move, rule: CastleRule) returns (r: Result<Board>)
    requires m.MajorMove? || m.MajorAttackMove? || m.PawnMove? || m.PawnAttackMove?
    ensures r == ExecuteMove(b, m, rule)
  {
    var builder := new Builder();
    var mover := b.CurrentPlayer().alliance;
    PlacePieces(builder, b.ActivePiecesOf(mover), {m.movedPiece});
    PlacePieces(builder, b.ActivePiecesOf(mover.Opponent()), {});
    var moved := MovePiece(m.movedPiece, m);
    builder.SetPiece(moved);
    builder.SetMoveMaker(mover.Opponent());
    ghost var before := PlaceAll(PlaceAll(map[], Without(b.ActivePiecesOf(mover), {m.movedPiece})), Without(b.ActivePiecesOf(mover.Opponent()), {}));
    PlaceOne(before, moved);
    r := builder.Build(rule);
  }

  /** PawnEnPassantAttack.execute: the attacked pawn is skipped among the opponent's pieces. */
  method ExecuteEnPassant(b: Board, m: Move, rule: CastleRule) returns (r: Result<Board>)
    requires m.PawnEnPassantAttack?
    ensures r == ExecuteMove(b, m, rule)
  {
    var builder := new Builder();
    var mover := b.CurrentPlayer().alliance;
    PlacePieces(builder, b.ActivePiecesOf(mover), {m.movedPiece});
    PlacePieces(builder, b.ActivePiecesOf(mover.Opponent()), {m.attackedPiece});
    PlaceOne(builder.boardConfig, MovePiece(m.movedPiece, m));
    builder.SetPiece(MovePiece(m.movedPiece, m));
    builder.SetMoveMaker(mover.Opponent());
    r := builder.Build(rule);
  }

  /** PawnJump.execute: the moved pawn also becomes the en-passant pawn. */
  method ExecuteJump(b: Board, m: Move, rule: CastleRule) returns (r: Result<Board>)
    requires m.PawnJump?
    ensures r == ExecuteMove(b, m, rule)
  {
    var builder := new Builder();
    var mover := b.CurrentPlayer().alliance;
    PlacePieces(builder, b.ActivePiecesOf(mover), {m.movedPiece});
    PlacePieces(builder, b.ActivePiecesOf(mover.Opponent()), {});
    var movedPawn := MovePiece(m.movedPiece, m);
    PlaceOne(builder.boardConfig, movedPawn);
    builder.SetPiece(movedPawn);
    builder.SetEnPassantPawn(Some(movedPawn));
    builder.SetMoveMaker(mover.Opponent());
    r := builder.Build(rule);
  }

  /** CastleMove.execute: king and castle rook are skipped, then the moved king and a new rook are set. */
  method ExecuteCastle(b: Board, m: Move, rule: CastleRule) returns (r: Result<Board>)
    requires m.KingSideCastleMove? || m.QueenSideCastleMove?
    ensures r == ExecuteMove(b, m, rule)
  {
    var builder := new Builder();
    var mover := b.CurrentPlayer().alliance;
    PlacePieces(builder, b.ActivePiecesOf(mover), {m.movedPiece, m.castleRook});
    PlacePieces(builder, b.ActivePiecesOf(mover.Opponent()), {});
    var rook := NewPiece(Rook, m.castleRook.pieceAlliance, m.castleRookDestination);
    PlaceTwo(builder.boardConfig, MovePiece(m.movedPiece, m), rook);
    builder.SetPiece(MovePiece(m.movedPiece, m));
    builder.SetPiece(rook);
    builder.SetMoveMaker(mover.Opponent());
    r := builder.Build(rule);
  }

  /** PawnPromotion.execute: the wrapped move runs first, then its board is copied with the queen on the destination. */
  method ExecutePromotion(b: Board, m: Move, rule: CastleRule) returns (r: Result<Board>)
    requires m.PawnPromotion?
    ensures r == ExecuteMove(b, m, rule)
    decreases m, 0
  {
    var pawnMovedBoard := Execute(b, m.decoratedMove, rule);
    if pawnMovedBoard.Failure? {
      return Failure(pawnMovedBoard.error);
    }
    var builder := new Builder();
    var current := pawnMovedBoard.value.CurrentPlayer().alliance;
    // `this.equals(piece)` compares the promotion move with a piece: it never holds, so nothing is skipped.
    PlacePieces(builder, pawnMovedBoard.value.ActivePiecesOf(current), {});
    PlacePieces(builder, pawnMovedBoard.value.ActivePiecesOf(current.Opponent()), {});
    var promotionPiece := Pawns.GetPromotionPiece(m.decoratedMove.GetMovedPiece().value);
    PlaceOne(builder.boardConfig, MovePiece(promotionPiece, m));
    builder.SetPiece(MovePiece(promotionPiece, m));
    builder.SetMoveMaker(current);
    r := builder.Build(rule);
  }

  /** A side's list on a built board is the board's list of that side's tiles. */
  lemma ActivePiecesOfValid(b: Board, alliance: Alliance)
    requires b.Valid()
    ensures b.ActivePiecesOf(alliance) == ActivePieces(b.gameBoard, alliance)
  {
  }

  /** What one square of the two copy loops holds: the old tile, emptied when its piece was skipped. */
  function Kept(b: Board, coordinate: int, skippedMine: set<Piece>, skippedTheirs: set<Piece>): Tile
    requires b.Valid() && 0 <= coordinate < NumTiles
  {
    var tile := b.gameBoard[coordinate];
    if tile.IsTileOccupied() &&
       tile.pieceOnTile in (if tile.pieceOnTile.pieceAlliance == b.nextMoveMaker then skippedMine else skippedTheirs)
    then EmptyTile(coordinate) else tile
  }

  lemma WithoutOne(piece: Piece, skipped: set<Piece>)
    ensures Without([piece], skipped) == if piece in skipped then [] else [piece]
  {
    assert [piece][..0] == [];
  }

  lemma GameBoardSquare(boardConfig: map<int, Piece>, coordinate: int)
    requires 0 <= coordinate < NumTiles
    ensures GameBoard(boardConfig)[coordinate] ==
              if coordinate in boardConfig then OccupiedTile(coordinate, boardConfig[coordinate]) else EmptyTile(coordinate)
  {
  }

  /** One side's copy loop, on one square: the side's piece there, unless it is skipped. */
  lemma SkippedAt(b: Board, alliance: Alliance, skipped: set<Piece>, coordinate: int)
    requires b.Valid() && 0 <= coordinate < NumTiles
    ensures var tile := b.gameBoard[coordinate];
            At(Without(b.ActivePiecesOf(alliance), skipped), coordinate) ==
              if tile.IsTileOccupied() && tile.pieceOnTile.pieceAlliance == alliance && tile.pieceOnTile !in skipped
              then [tile.pieceOnTile] else []
  {
    ActivePiecesOfValid(b, alliance);
    ActiveAt(b.gameBoard, alliance, coordinate);
    AtWithout(b.ActivePiecesOf(alliance), skipped, coordinate);
    var tile := b.gameBoard[coordinate];
    if tile.IsTileOccupied() {
      WithoutOne(tile.pieceOnTile, skipped);
    }
    assert Without([], skipped) == [];
  }

  /** After both copy loops a square holds its old piece, unless that piece was skipped. */
  lemma CopiedSquare(b: Board, skippedMine: set<Piece>, skippedTheirs: set<Piece>, coordinate: int)
    requires b.Valid() && 0 <= coordinate < NumTiles
    ensures var mover := b.CurrentPlayer().alliance;
            var first := PlaceAll(map[], Without(b.ActivePiecesOf(mover), skippedMine));
            var second := PlaceAll(first, Without(b.ActivePiecesOf(mover.Opponent()), skippedTheirs));
            var kept := Kept(b, coordinate, skippedMine, skippedTheirs);
            Lookup(second, coordinate) == if kept.IsTileOccupied() then Some(kept.pieceOnTile) else None
  {
    var mover := b.CurrentPlayer().alliance;
    var first := PlaceAll(map[], Without(b.ActivePiecesOf(mover), skippedMine));
    SkippedAt(b, mover, skippedMine, coordinate);
    SkippedAt(b, mover.Opponent(), skippedTheirs, coordinate);
    PlaceAllLookup(map[], Without(b.ActivePiecesOf(mover), skippedMine), coordinate);
    PlaceAllLookup(first, Without(b.ActivePiecesOf(mover.Opponent()), skippedTheirs), coordinate);
  }

  /** A square of a rebuilt board: the last placed piece standing on it, otherwise what the copy loops kept. */
  lemma RebuiltSquare(b: Board, skippedMine: set<Piece>, skippedTheirs: set<Piece>, placed: seq<Piece>, coordinate: int)
    requires b.Valid() && 0 <= coordinate < NumTiles
    ensures var here := At(placed, coordinate);
            GameBoard(Rebuilt(b, skippedMine, skippedTheirs, placed))[coordinate] ==
              if here != [] then OccupiedTile(coordinate, here[|here| - 1]) else Kept(b, coordinate, skippedMine, skippedTheirs)
  {
    var mover := b.CurrentPlayer().alliance;
    var first := PlaceAll(map[], Without(b.ActivePiecesOf(mover), skippedMine));
    var second := PlaceAll(first, Without(b.ActivePiecesOf(mover.Opponent()), skippedTheirs));
    CopiedSquare(b, skippedMine, skippedTheirs, coordinate);
    PlaceAllLookup(second, placed, coordinate);
    GameBoardSquare(Rebuilt(b, skippedMine, skippedTheirs, placed), coordinate);
  }

  lemma AtOne(piece: Piece, coordinate: int)
    ensures At([piece], coordinate) == if piece.piecePosition == coordinate then [piece] else []
  {
    assert [piece][..0] == [];
  }

  lemma AtTwo(first: Piece, second: Piece, coordinate: int)
    ensures var here := At([first, second], coordinate);
            (second.piecePosition == coordinate ==> here != [] && here[|here| - 1] == second) &&
            (second.piecePosition != coordinate && first.piecePosition == coordinate ==> here == [first]) &&
            (second.piecePosition != coordinate && first.piecePosition != coordinate ==> here == [])
  {
    assert [first, second][..1] == [first];
    AtOne(first, coordinate);
  }

  /** The tile holds `piece`, a piece of `alliance`. */
  predicate Holds(b: Board, coordinate: int, piece: Piece, alliance: Alliance)
    requires b.Valid() && 0 <= coordinate < NumTiles
  {
    b.gameBoard[coordinate].IsTileOccupied() && b.gameBoard[coordinate].pieceOnTile == piece && piece.pieceAlliance == alliance
  }

  /** One square of the board a base execute builds. */
  lemma BaseSquare(b: Board, moved: Piece, copy: Piece, c: int)
    requires b.Valid() && 0 <= c < NumTiles
    ensures GameBoard(Rebuilt(b, {moved}, {}, [copy]))[c] ==
              if c == copy.piecePosition then OccupiedTile(c, copy)
              else if Holds(b, c, moved, b.nextMoveMaker) then EmptyTile(c)
              else b.gameBoard[c]
  {
    RebuiltSquare(b, {moved}, {}, [copy], c);
    AtOne(copy, c);
  }

  /** One square of the board an en-passant execute builds. */
  lemma EnPassantSquare(b: Board, moved: Piece, attacked: Piece, copy: Piece, c: int)
    requires b.Valid() && 0 <= c < NumTiles
    ensures GameBoard(Rebuilt(b, {moved}, {attacked}, [copy]))[c] ==
              if c == copy.piecePosition then OccupiedTile(c, copy)
              else if Holds(b, c, moved, b.nextMoveMaker) then EmptyTile(c)
              else if Holds(b, c, attacked, b.nextMoveMaker.Opponent()) then EmptyTile(c)
              else b.gameBoard[c]
  {
    RebuiltSquare(b, {moved}, {attacked}, [copy], c);
    AtOne(copy, c);
  }

  /** One square of the board a castle execute builds. */
  lemma CastleSquare(b: Board, king: Piece, castleRook: Piece, kingCopy: Piece, rook: Piece, c: int)
    requires b.Valid() && 0 <= c < NumTiles
    ensures GameBoard(Rebuilt(b, {king, castleRook}, {}, [kingCopy, rook]))[c] ==
              if c == rook.piecePosition then OccupiedTile(c, rook)
              else if c == kingCopy.piecePosition then OccupiedTile(c, kingCopy)
              else if Holds(b, c, king, b.nextMoveMaker) || Holds(b, c, castleRook, b.nextMoveMaker) then EmptyTile(c)
              else b.gameBoard[c]
  {
    RebuiltSquare(b, {king, castleRook}, {}, [kingCopy, rook], c);
    AtTwo(kingCopy, rook, c);
  }

  /**
   * The base execute (and PawnJump's): the destination holds the moved piece's copy, the moved piece's
   * own square is emptied, and every other square keeps its tile -- a piece captured on the destination
   * is simply overwritten.
   */
  lemma BaseExecuteSquares(b: Board, m: Move, rule: CastleRule)
    requires b.Valid()
    requires m.MajorMove? || m.MajorAttackMove? || m.PawnMove? || m.PawnAttackMove? || m.PawnJump?
    requires ExecuteMove(b, m, rule).Success?
    ensures var after := ExecuteMove(b, m, rule).value.gameBoard;
            forall c | 0 <= c < NumTiles ::
              after[c] == if c == m.destinationCoordinate then OccupiedTile(c, MovePiece(m.movedPiece, m))
                          else if Holds(b, c, m.movedPiece, b.nextMoveMaker) then EmptyTile(c)
                          else b.gameBoard[c]
  {
    var moved := MovePiece(m.movedPiece, m);
    var after := ExecuteMove(b, m, rule).value.gameBoard;
    assert after == GameBoard(Rebuilt(b, {m.movedPiece}, {}, [moved]));
    forall c | 0 <= c < NumTiles
      ensures after[c] ==
                if c == m.destinationCoordinate then OccupiedTile(c, moved)
                else if Holds(b, c, m.movedPiece, b.nextMoveMaker) then EmptyTile(c)
                else b.gameBoard[c]
    {
      BaseSquare(b, m.movedPiece, moved, c);
    }
  }

  /** En-passant execute: like a base move, and the attacked pawn's own square is emptied too. */
  lemma EnPassantSquares(b: Board, m: Move, rule: CastleRule)
    requires b.Valid() && m.PawnEnPassantAttack?
    requires ExecuteMove(b, m, rule).Success?
    ensures var after := ExecuteMove(b, m, rule).value.gameBoard;
            forall c | 0 <= c < NumTiles ::
              after[c] == if c == m.destinationCoordinate then OccupiedTile(c, MovePiece(m.movedPiece, m))
                          else if Holds(b, c, m.movedPiece, b.nextMoveMaker) then EmptyTile(c)
                          else if Holds(b, c, m.attackedPiece, b.nextMoveMaker.Opponent()) then EmptyTile(c)
                          else b.gameBoard[c]
  {
    var moved := MovePiece(m.movedPiece, m);
    var after := ExecuteMove(b, m, rule).value.gameBoard;
    assert after == GameBoard(Rebuilt(b, {m.movedPiece}, {m.attackedPiece}, [moved]));
    forall c | 0 <= c < NumTiles
      ensures after[c] ==
                if c == m.destinationCoordinate then OccupiedTile(c, moved)
                else if Holds(b, c, m.movedPiece, b.nextMoveMaker) then EmptyTile(c)
                else if Holds(b, c, m.attackedPiece, b.nextMoveMaker.Opponent()) then EmptyTile(c)
                else b.gameBoard[c]
    {
      EnPassantSquare(b, m.movedPiece, m.attackedPiece, moved, c);
    }
  }

  /**
   * Castle execute: the rook's destination holds a new rook, the king's destination the moved king,
   * the squares of the king and the castle rook are emptied, and every other square keeps its tile.
   */
  lemma CastleSquares(b: Board, m: Move, rule: CastleRule)
    requires b.Valid() && (m.KingSideCastleMove? || m.QueenSideCastleMove?)
    requires ExecuteMove(b, m, rule).Success?
    ensures var after := ExecuteMove(b, m, rule).value.gameBoard;
            forall c | 0 <= c < NumTiles ::
              after[c] == if c == m.castleRookDestination then OccupiedTile(c, NewPiece(Rook, m.castleRook.pieceAlliance, c))
                          else if c == m.destinationCoordinate then OccupiedTile(c, MovePiece(m.movedPiece, m))
                          else if Holds(b, c, m.movedPiece, b.nextMoveMaker) || Holds(b, c, m.castleRook, b.nextMoveMaker) then EmptyTile(c)
                          else b.gameBoard[c]
  {
    var king := MovePiece(m.movedPiece, m);
    var rook := NewPiece(Rook, m.castleRook.pieceAlliance, m.castleRookDestination);
    var after := ExecuteMove(b, m, rule).value.gameBoard;
    assert after == GameBoard(Rebuilt(b, {m.movedPiece, m.castleRook}, {}, [king, rook]));
    forall c | 0 <= c < NumTiles
      ensures after[c] ==
                if c == m.castleRookDestination then OccupiedTile(c, NewPiece(Rook, m.castleRook.pieceAlliance, c))
                else if c == m.destinationCoordinate then OccupiedTile(c, king)
                else if Holds(b, c, m.movedPiece, b.nextMoveMaker) || Holds(b, c, m.castleRook, b.nextMoveMaker) then EmptyTile(c)
                else b.gameBoard[c]
    {
      CastleSquare(b, m.movedPiece, m.castleRook, king, rook, c);
    }
  }

  /**
   * Promotion execute: the destination holds a new queen of the pawn's side, and every other square
   * is as the wrapped move left it.
   */
  lemma PromotionSquares(b: Board, m: Move, rule: CastleRule)
    requires b.Valid() && m.PawnPromotion?
    requires ExecuteMove(b, m, rule).Success?
    ensures ExecuteMove(b, m.decoratedMove, rule).Success?
    ensures var after := ExecuteMove(b, m, rule).value.gameBoard;
            var pawnMoved := ExecuteMove(b, m.decoratedMove, rule).value.gameBoard;
            var pawn := m.GetMovedPiece().value;
            forall c | 0 <= c < NumTiles ::
              after[c] == if c == m.GetDestinationCoordinate() then OccupiedTile(c, NewPiece(Queen, pawn.pieceAlliance, c))
                          else pawnMoved[c]
  {
    var mid := ExecuteMove(b, m.decoratedMove, rule).value;
    var queen := MovePiece(Pawns.GetPromotionPiece(m.decoratedMove.GetMovedPiece().value), m);
    forall c | 0 <= c < NumTiles
      ensures ExecuteMove(b, m, rule).value.gameBoard[c] ==
                if c == m.GetDestinationCoordinate() then OccupiedTile(c, NewPiece(Queen, m.GetMovedPiece().value.pieceAlliance, c))
                else mid.gameBoard[c]
    {
      RebuiltSquare(mid, {}, {}, [queen], c);
      AtOne(queen, c);
    }
  }

  /** No tile of the board holds the piece. */
  predicate Absent(gameBoard: seq<Tile>, piece: Piece)
  {
    forall c | 0 <= c < |gameBoard| :: !(gameBoard[c].IsTileOccupied() && gameBoard[c].pieceOnTile == piece)
  }

  lemma AbsentIsInactive(gameBoard: seq<Tile>, piece: Piece, alliance: Alliance)
    requires Absent(gameBoard, piece)
    ensures piece !in ActivePieces(gameBoard, alliance)
  {
  }

  lemma BaseCaptureDisappears(b: Board, m: Move, rule: CastleRule)
    requires b.Valid() && ExecuteMove(b, m, rule).Success? && (m.MajorAttackMove? || m.PawnAttackMove?)
    requires m.movedPiece.pieceAlliance != m.attackedPiece.pieceAlliance
    requires m.attackedPiece.piecePosition == m.destinationCoordinate
    ensures Absent(ExecuteMove(b, m, rule).value.gameBoard, m.attackedPiece)
  {
    BaseExecuteSquares(b, m, rule);
    var after := ExecuteMove(b, m, rule).value.gameBoard;
    forall c | 0 <= c < NumTiles ensures !(after[c].IsTileOccupied() && after[c].pieceOnTile == m.attackedPiece) {
      if c != m.destinationCoordinate && !Holds(b, c, m.movedPiece, b.nextMoveMaker) {
        assert after[c] == b.gameBoard[c];
      }
    }
  }

  lemma EnPassantCaptureDisappears(b: Board, m: Move, rule: CastleRule)
    requires b.Valid() && ExecuteMove(b, m, rule).Success? && m.PawnEnPassantAttack?
    requires m.movedPiece.pieceAlliance != m.attackedPiece.pieceAlliance
    requires m.attackedPiece.pieceAlliance == b.nextMoveMaker.Opponent()
    ensures Absent(ExecuteMove(b, m, rule).value.gameBoard, m.attackedPiece)
  {
    EnPassantSquares(b, m, rule);
    var after := ExecuteMove(b, m, rule).value.gameBoard;
    forall c | 0 <= c < NumTiles ensures !(after[c].IsTileOccupied() && after[c].pieceOnTile == m.attackedPiece) {
      if c != m.destinationCoordinate && !Holds(b, c, m.movedPiece, b.nextMoveMaker) &&
         !Holds(b, c, m.attackedPiece, b.nextMoveMaker.Opponent()) {
        assert after[c] == b.gameBoard[c];
      }
    }
  }

  /**
   * A captured piece is gone from the executed board: overwritten on the destination by a base capture,
   * removed from its own square by en passant, and a promotion keeps it gone. The attacked piece must
   * be an opponent's, standing on the destination unless the capture is en passant.
   */
  lemma {:induction false} CapturedPieceDisappears(b: Board, m: Move, rule: CastleRule)
    requires b.Valid() && ExecuteMove(b, m, rule).Success?
    requires m.GetMovedPiece().Some? && m.GetMovedPiece().value.pieceAlliance == b.nextMoveMaker
    requires m.GetAttackedPiece().Some? && m.GetAttackedPiece().value.pieceAlliance == b.nextMoveMaker.Opponent()
    requires Pawns.Unwrapped(m).PawnEnPassantAttack? || m.GetAttackedPiece().value.piecePosition == m.GetDestinationCoordinate()
    ensures Absent(ExecuteMove(b, m, rule).value.gameBoard, m.GetAttackedPiece().value)
    ensures m.GetAttackedPiece().value !in ExecuteMove(b, m, rule).value.ActivePiecesOf(b.nextMoveMaker.Opponent())
    decreases m
  {
    var after := ExecuteMove(b, m, rule).value;
    var attacked := m.GetAttackedPiece().value;
    AbsentCases(b, m, rule);
    AbsentIsInactive(after.gameBoard, attacked, b.nextMoveMaker.Opponent());
  }

  /** A piece of the other side absent after the wrapped move stays absent after the promotion. */
  lemma PromotionKeepsAbsent(b: Board, m: Move, rule: CastleRule, piece: Piece)
    requires b.Valid() && m.PawnPromotion? && ExecuteMove(b, m, rule).Success?
    requires m.GetMovedPiece().Some? && m.GetMovedPiece().value.pieceAlliance != piece.pieceAlliance
    requires ExecuteMove(b, m.decoratedMove, rule).Success? && Absent(ExecuteMove(b, m.decoratedMove, rule).value.gameBoard, piece)
    ensures Absent(ExecuteMove(b, m, rule).value.gameBoard, piece)
  {
    PromotionSquares(b, m, rule);
    var after := ExecuteMove(b, m, rule).value.gameBoard;
    var pawnMoved := ExecuteMove(b, m.decoratedMove, rule).value.gameBoard;
    forall c | 0 <= c < NumTiles ensures !(after[c].IsTileOccupied() && after[c].pieceOnTile == piece) {
      if c != m.GetDestinationCoordinate() {
        assert after[c] == pawnMoved[c];
      }
    }
  }

  lemma {:induction false} AbsentCases(b: Board, m: Move, rule: CastleRule)
    requires b.Valid() && ExecuteMove(b, m, rule).Success?
    requires m.GetMovedPiece().Some? && m.GetMovedPiece().value.pieceAlliance == b.nextMoveMaker
    requires m.GetAttackedPiece().Some? && m.GetAttackedPiece().value.pieceAlliance == b.nextMoveMaker.Opponent()
    requires Pawns.Unwrapped(m).PawnEnPassantAttack? || m.GetAttackedPiece().value.piecePosition == m.GetDestinationCoordinate()
    ensures Absent(ExecuteMove(b, m, rule).value.gameBoard, m.GetAttackedPiece().value)
    decreases m
  {
    var after := ExecuteMove(b, m, rule).value;
    var attacked := m.GetAttackedPiece().value;
    match m
    case PawnPromotion(decoratedMove) =>
      AbsentCases(b, decoratedMove, rule);
      PromotionKeepsAbsent(b, m, rule, attacked);
    case PawnEnPassantAttack(_, _, _) =>
      EnPassantCaptureDisappears(b, m, rule);
    case MajorAttackMove(_, _, _) =>
      BaseCaptureDisappears(b, m, rule);
    case PawnAttackMove(_, _, _) =>
      BaseCaptureDisappears(b, m, rule);
    case _ =>
  }

  /** The move leaves `currentCoordinate` for `destinationCoordinate`. */
  predicate Connects(m: Move, currentCoordinate: int, destinationCoordinate: int)
  {
    m.GetCurrentCoordinate() == currentCoordinate && m.GetDestinationCoordinate() == destinationCoordinate
  }

  /** The first listed move between the two squares, or the null move when there is none. */
  function FirstMatch(moves: seq<Move>, currentCoordinate: int, destinationCoordinate: int): (m: Move)
    ensures (exists i :: 0 <= i < |moves| && Connects(moves[i], currentCoordinate, destinationCoordinate)) ==>
              exists i :: 0 <= i < |moves| && m == moves[i] && Connects(moves[i], currentCoordinate, destinationCoordinate) &&
                          forall j :: 0 <= j < i ==> !Connects(moves[j], currentCoordinate, destinationCoordinate)
    ensures (forall i :: 0 <= i < |moves| ==> !Connects(moves[i], currentCoordinate, destinationCoordinate)) ==> m == NullMove
  {
    if moves == [] then NullMove
    else if Connects(moves[0], currentCoordinate, destinationCoordinate) then moves[0]
    else
      var m := FirstMatch(moves[1..], currentCoordinate, destinationCoordinate);
      assert forall i :: 0 < i < |moves| ==> moves[i] == moves[1..][i - 1];
      if exists i :: 0 <= i < |moves| && Connects(moves[i], currentCoordinate, destinationCoordinate) then
        var k :| 0 <= k < |moves| && Connects(moves[k], currentCoordinate, destinationCoordinate);
        assert Connects(moves[1..][k - 1], currentCoordinate, destinationCoordinate);
        var i :| 0 <= i < |moves[1..]| && m == moves[1..][i] && Connects(moves[1..][i], currentCoordinate, destinationCoordinate) &&
                 forall j :: 0 <= j < i ==> !Connects(moves[1..][j], currentCoordinate, destinationCoordinate);
        assert forall j :: 0 <= j < i + 1 ==> !Connects(moves[j], currentCoordinate, destinationCoordinate) by {
          forall j | 0 <= j < i + 1 ensures !Connects(moves[j], currentCoordinate, destinationCoordinate) {
            if j > 0 {
              assert moves[j] == moves[1..][j - 1];
            }
          }
        }
        assert m == moves[i + 1];
        m
      else m
  }

  /** One step of the search: the first match from position i on is move i, or the first match after it. */
  lemma FirstMatchFrom(moves: seq<Move>, i: int, currentCoordinate: int, destinationCoordinate: int)
    requires 0 <= i < |moves|
    ensures FirstMatch(moves[i..], currentCoordinate, destinationCoordinate) ==
            if Connects(moves[i], currentCoordinate, destinationCoordinate) then moves[i]
            else FirstMatch(moves[i + 1..], currentCoordinate, destinationCoordinate)
  {
    assert moves[i..][0] == moves[i] && moves[i..][1..] == moves[i + 1..];
  }

  /** MoveFactory.createMove: a search of getAllLegalMoves for a move between the two squares. */
  method CreateMove(b: Board, currentCoordinate: int, destinationCoordinate: int) returns (m: Move)
    ensures m == FirstMatch(b.GetAllLegalMoves(), currentCoordinate, destinationCoordinate)
  {
    var moves := b.GetAllLegalMoves();
    for i := 0 to |moves|
      invariant FirstMatch(moves, currentCoordinate, destinationCoordinate) == FirstMatch(moves[i..], currentCoordinate, destinationCoordinate)
    {
      var move := moves[i];
      FirstMatchFrom(moves, i, currentCoordinate, destinationCoordinate);
      if move.GetCurrentCoordinate() == currentCoordinate && move.GetDestinationCoordinate() == destinationCoordinate {
        return move;
      }
    }
    return NullMove;
  }
}
