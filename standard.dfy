/**
 * The standard starting position of ChessBoard.createStandardBoard, and what ChessBoardTest expects of
 * it: the layout, the piece lists, twenty moves per side and neither side in check.
 */
module StandardPosition {
  import opened Wrappers
  import opened Seqs
  import opened Squares
  import opened Alliances
  import opened Pieces
  import opened Tiles
  import opened Moves
  import opened BoardViews
  import opened Players
  import opened Boards
  import Execution
  import Play
  import Pawns
  import Knights
  import Sliding
  import Bishops
  import Rooks
  import Queens
  import Kings

  /** Black on squares 0-15, White on 48-63, everything between empty. */
  predicate IsStandardTiles(tiles: seq<Tile>)
  {
    |tiles| == NumTiles &&
    forall i | 0 <= i < NumTiles ::
      tiles[i] == if i < 16 || 48 <= i then OccupiedTile(i, StandardPiece(i)) else EmptyTile(i)
  }

  lemma StandardGameBoard()
    ensures IsStandardTiles(GameBoard(StandardConfig()))
  {
    var tiles := GameBoard(StandardConfig());
    forall i | 0 <= i < NumTiles
      ensures tiles[i] == if i < 16 || 48 <= i then OccupiedTile(i, StandardPiece(i)) else EmptyTile(i)
    {
      Execution.GameBoardSquare(StandardConfig(), i);
    }
  }

  /** The white pieces in tile order: the pawns on 48-55, then the back rank on 56-63. */
  function WhitePieces(): seq<Piece>
  {
    seq(16, j requires 0 <= j < 16 => StandardPiece(48 + j))
  }

  /** The black pieces in tile order: the back rank on 0-7, then the pawns on 8-15. */
  function BlackPieces(): seq<Piece>
  {
    seq(16, j requires 0 <= j < 16 => StandardPiece(j))
  }

  /** Scanning one more tile adds its piece when it belongs to the side. */
  lemma ActiveStep(tiles: seq<Tile>, k: nat, alliance: Alliance)
    requires 0 < k <= |tiles|
    ensures ActivePieces(tiles[..k], alliance) ==
            ActivePieces(tiles[..k - 1], alliance) +
            (if tiles[k - 1].IsTileOccupied() && tiles[k - 1].pieceOnTile.pieceAlliance == alliance then [tiles[k - 1].pieceOnTile] else [])
  {
    assert tiles[..k][..k - 1] == tiles[..k - 1];
  }

  /** The first k tiles of the standard board hold the black pieces of squares 0 to k - 1, in tile order. */
  lemma {:induction false} BlackPiecesUpTo(tiles: seq<Tile>, k: nat)
    requires IsStandardTiles(tiles) && k <= NumTiles
    ensures ActivePieces(tiles[..k], Black) == BlackPieces()[..if k < 16 then k else 16]
  {
    if k > 0 {
      BlackPiecesUpTo(tiles, k - 1);
      ActiveStep(tiles, k, Black);
      var t := tiles[k - 1];
      if k <= 16 {
        assert t == OccupiedTile(k - 1, StandardPiece(k - 1));
        assert BlackPieces()[k - 1] == StandardPiece(k - 1);
        PrefixSnoc(BlackPieces(), k);
      } else if k <= 48 {
        assert t == EmptyTile(k - 1);
      } else {
        assert t == OccupiedTile(k - 1, StandardPiece(k - 1));
        assert t.pieceOnTile.pieceAlliance == White;
      }
    }
  }

  /** The first k tiles of the standard board hold the white pieces of squares 48 to k - 1, in tile order. */
  lemma {:induction false} WhitePiecesUpTo(tiles: seq<Tile>, k: nat)
    requires IsStandardTiles(tiles) && k <= NumTiles
    ensures ActivePieces(tiles[..k], White) == WhitePieces()[..if k < 48 then 0 else k - 48]
  {
    if k > 0 {
      WhitePiecesUpTo(tiles, k - 1);
      ActiveStep(tiles, k, White);
      var t := tiles[k - 1];
      if k <= 16 {
        assert t == OccupiedTile(k - 1, StandardPiece(k - 1));
        assert t.pieceOnTile.pieceAlliance == Black;
      } else if k <= 48 {
        assert t == EmptyTile(k - 1);
      } else {
        assert t == OccupiedTile(k - 1, StandardPiece(k - 1));
        assert WhitePieces()[k - 49] == StandardPiece(k - 1);
        PrefixSnoc(WhitePieces(), k - 48);
      }
    }
  }

  /** calculateActivePieces on the standard board. */
  lemma StandardActivePieces(tiles: seq<Tile>)
    requires IsStandardTiles(tiles)
    ensures ActivePieces(tiles, White) == WhitePieces()
    ensures ActivePieces(tiles, Black) == BlackPieces()
  {
    WhitePiecesUpTo(tiles, NumTiles);
    BlackPiecesUpTo(tiles, NumTiles);
    assert tiles[..NumTiles] == tiles;
  }

  /** The standard board builds: both kings are there and White has the move. */
  lemma StandardBoardBuilds(rule: CastleRule)
    ensures BuildBoard(StandardConfig(), Some(White), None, rule).Success?
    ensures BuildBoard(StandardConfig(), Some(White), None, rule).value.CurrentPlayer() == BuildBoard(StandardConfig(), Some(White), None, rule).value.whitePlayer
  {
    StandardGameBoard();
    var tiles := GameBoard(StandardConfig());
    assert tiles[60].pieceOnTile == StandardPiece(60);
    assert tiles[4].pieceOnTile == StandardPiece(4);
    assert HasKing(tiles, White) && HasKing(tiles, Black);
  }

  /** The view the pieces of a freshly built standard board see: no en-passant pawn, no current player yet. */
  function OpeningView(tiles: seq<Tile>): (view: BoardView)
    requires IsStandardTiles(tiles)
    ensures view.Valid()
  {
    BoardView(tiles, None, None)
  }

  /**
   * The opening moves of the standard piece on a square, stated independently of the move generators:
   * a pawn's single and double push, a knight's two jumps towards the centre, nothing for the others.
   */
  function OpeningMoves(coordinate: int): seq<Move>
    requires 0 <= coordinate < NumTiles
  {
    var piece := StandardPiece(coordinate);
    var ahead := if coordinate < 16 then 8 else -8;
    match StandardPieceKind(coordinate)
    case Pawn => [PawnMove(piece, coordinate + ahead), PawnJump(piece, coordinate + 2 * ahead)]
    case Knight =>
      if coordinate < 16 then [MajorMove(piece, coordinate + 15), MajorMove(piece, coordinate + 17)]
      else [MajorMove(piece, coordinate - 17), MajorMove(piece, coordinate - 15)]
    case _ => []
  }

  lemma Flatten4<T>(a: seq<T>, b: seq<T>, c: seq<T>, d: seq<T>)
    ensures Flatten([a, b, c, d]) == a + b + c + d
  {
    FlattenSnoc([a], b);
    FlattenSnoc([a, b], c);
    FlattenSnoc([a, b, c], d);
    assert [a] + [b] == [a, b] && [a, b] + [c] == [a, b, c] && [a, b, c] + [d] == [a, b, c, d];
    assert Flatten([a]) == a by { FlattenSnoc([], a); assert [] + [a] == [a]; }
  }

  lemma {:induction false} FlattenEmpty<T>(ss: seq<seq<T>>)
    requires forall i :: 0 <= i < |ss| ==> ss[i] == []
    ensures Flatten(ss) == []
  {
    if ss != [] {
      FlattenEmpty(ss[..|ss| - 1]);
    }
  }

  /** A pawn on its starting rank of the standard board moves one or two squares straight ahead. */
  lemma PawnOpening(tiles: seq<Tile>, coordinate: int)
    requires IsStandardTiles(tiles)
    requires 8 <= coordinate < 16 || 48 <= coordinate < 56
    ensures Pawns.LegalMoves(OpeningView(tiles), StandardPiece(coordinate)) == OpeningMoves(coordinate)
  {
    var view := OpeningView(tiles);
    var pawn := StandardPiece(coordinate);
    var steps := Pawns.CandidateSteps(view, pawn);
    var ahead := if coordinate < 16 then 8 else -8;
    assert steps[0] == [];
    assert steps[1] == [PawnMove(pawn, coordinate + ahead)];
    assert steps[2] == [];
    assert steps[3] == [PawnJump(pawn, coordinate + 2 * ahead)];
    assert steps == [steps[0], steps[1], steps[2], steps[3]];
    Flatten4(steps[0], steps[1], steps[2], steps[3]);
  }

  lemma {:induction false} FlattenAppend<T>(xs: seq<seq<T>>, ys: seq<seq<T>>)
    ensures Flatten(xs + ys) == Flatten(xs) + Flatten(ys)
  {
    if ys == [] {
      assert xs + ys == xs;
    } else {
      var n := |ys| - 1;
      FlattenAppend(xs, ys[..n]);
      assert (xs + ys)[..|xs + ys| - 1] == xs + ys[..n];
      assert (xs + ys)[|xs + ys| - 1] == ys[n];
    }
  }

  lemma Flatten8<T>(ss: seq<seq<T>>)
    requires |ss| == 8
    ensures Flatten(ss) == ss[0] + ss[1] + ss[2] + ss[3] + ss[4] + ss[5] + ss[6] + ss[7]
  {
    assert ss == [ss[0], ss[1], ss[2], ss[3]] + [ss[4], ss[5], ss[6], ss[7]];
    FlattenAppend([ss[0], ss[1], ss[2], ss[3]], [ss[4], ss[5], ss[6], ss[7]]);
    Flatten4(ss[0], ss[1], ss[2], ss[3]);
    Flatten4(ss[4], ss[5], ss[6], ss[7]);
  }

  /** A knight of the standard board has its two jumps towards the centre; its other squares are off the board, wrapped or its own. */
  lemma KnightOpening(tiles: seq<Tile>, coordinate: int)
    requires IsStandardTiles(tiles)
    requires coordinate == 1 || coordinate == 6 || coordinate == 57 || coordinate == 62
    ensures Knights.LegalMoves(OpeningView(tiles), StandardPiece(coordinate)) == OpeningMoves(coordinate)
  {
    var steps := Knights.CandidateSteps(OpeningView(tiles), StandardPiece(coordinate));
    Flatten8(steps);
    if coordinate < 16 {
      KnightStepsBlack(tiles, coordinate);
    } else {
      KnightStepsWhite(tiles, coordinate);
    }
  }

  lemma KnightStepsBlack(tiles: seq<Tile>, coordinate: int)
    requires IsStandardTiles(tiles)
    requires coordinate == 1 || coordinate == 6
    ensures var knight := StandardPiece(coordinate);
            var steps := Knights.CandidateSteps(OpeningView(tiles), knight);
            steps[0] + steps[1] + steps[2] + steps[3] + steps[4] + steps[5] + steps[6] + steps[7]
              == [MajorMove(knight, coordinate + 15), MajorMove(knight, coordinate + 17)]
  {
    var view := OpeningView(tiles);
    var knight := StandardPiece(coordinate);
    var steps := Knights.CandidateSteps(view, knight);
    assert steps[0] == [] && steps[1] == [] && steps[2] == [] && steps[3] == [];
    assert tiles[coordinate + 6].IsTileOccupied() || Knights.IsExcluded(coordinate, 6);
    assert steps[4] == [];
    assert tiles[coordinate + 10].IsTileOccupied() || Knights.IsExcluded(coordinate, 10);
    assert steps[5] == [];
    assert steps[6] == [MajorMove(knight, coordinate + 15)];
    assert steps[7] == [MajorMove(knight, coordinate + 17)];
  }

  lemma KnightStepsWhite(tiles: seq<Tile>, coordinate: int)
    requires IsStandardTiles(tiles)
    requires coordinate == 57 || coordinate == 62
    ensures var knight := StandardPiece(coordinate);
            var steps := Knights.CandidateSteps(OpeningView(tiles), knight);
            steps[0] + steps[1] + steps[2] + steps[3] + steps[4] + steps[5] + steps[6] + steps[7]
              == [MajorMove(knight, coordinate - 17), MajorMove(knight, coordinate - 15)]
  {
    var view := OpeningView(tiles);
    var knight := StandardPiece(coordinate);
    var steps := Knights.CandidateSteps(view, knight);
    assert steps[0] == [MajorMove(knight, coordinate - 17)];
    assert steps[1] == [MajorMove(knight, coordinate - 15)];
    assert tiles[coordinate - 10].IsTileOccupied() || Knights.IsExcluded(coordinate, -10);
    assert steps[2] == [];
    assert tiles[coordinate - 6].IsTileOccupied() || Knights.IsExcluded(coordinate, -6);
    assert steps[3] == [];
    assert steps[4] == [] && steps[5] == [] && steps[6] == [] && steps[7] == [];
  }

  /** The king of the standard board is hemmed in by its own pieces and the edge; the view has no castles yet. */
  lemma KingOpening(tiles: seq<Tile>, coordinate: int)
    requires IsStandardTiles(tiles)
    requires coordinate == 4 || coordinate == 60
    ensures Kings.LegalMoves(OpeningView(tiles), StandardPiece(coordinate)) == []
  {
    if coordinate == 4 {
      BlackKingBoxedIn(tiles);
    } else {
      WhiteKingBoxedIn(tiles);
    }
  }

  /** The black king's eight offsets all meet a black piece or the board's edge. */
  lemma BlackKingBoxedIn(tiles: seq<Tile>)
    requires IsStandardTiles(tiles)
    ensures Kings.LegalMoves(OpeningView(tiles), StandardPiece(4)) == []
  {
    var steps := Kings.CandidateSteps(OpeningView(tiles), StandardPiece(4));
    assert steps[0] == [] && steps[1] == [] && steps[2] == [] && steps[3] == [];
    assert steps[4] == [] && steps[5] == [] && steps[6] == [] && steps[7] == [];
    FlattenEmpty(steps);
  }

  /** The white king's eight offsets all meet a white piece or the board's edge. */
  lemma WhiteKingBoxedIn(tiles: seq<Tile>)
    requires IsStandardTiles(tiles)
    ensures Kings.LegalMoves(OpeningView(tiles), StandardPiece(60)) == []
  {
    var steps := Kings.CandidateSteps(OpeningView(tiles), StandardPiece(60));
    assert steps[0] == [] && steps[1] == [] && steps[2] == [] && steps[3] == [];
    assert steps[4] == [] && steps[5] == [] && steps[6] == [] && steps[7] == [];
    FlattenEmpty(steps);
  }

  /** A ray whose first square is excluded, off the board or held by a friendly piece is empty. */
  lemma RayBlocked(view: BoardView, piece: Piece, offset: int, excluded: (int, int) -> bool)
    requires view.Valid() && offset != 0 && IsValidTileCoordinate(piece.piecePosition)
    requires || excluded(piece.piecePosition, offset)
             || !IsValidTileCoordinate(piece.piecePosition + offset)
             || (view.IsOccupied(piece.piecePosition + offset) && !view.IsEnemyAt(piece, piece.piecePosition + offset))
    ensures Sliding.Ray(view, piece, offset, excluded) == []
  {
  }

  /** Both bishops of each side stand behind their own pawns: every diagonal starts on a friendly piece or off the board. */
  lemma BishopOpening(tiles: seq<Tile>, coordinate: int)
    requires IsStandardTiles(tiles)
    requires coordinate == 2 || coordinate == 5 || coordinate == 58 || coordinate == 61
    ensures Bishops.LegalMoves(OpeningView(tiles), StandardPiece(coordinate)) == []
  {
    var view := OpeningView(tiles);
    var bishop := StandardPiece(coordinate);
    var vectors := Bishops.CandidateMoveVectorCoordinates;
    var rays := Sliding.Rays(view, bishop, vectors, Bishops.IsExcluded);
    forall i | 0 <= i < |rays|
      ensures rays[i] == []
    {
      RayBlocked(view, bishop, vectors[i], Bishops.IsExcluded);
    }
    FlattenEmpty(rays);
  }

  /** The rooks stand in the corners, between their own knight and pawn. */
  lemma RookOpening(tiles: seq<Tile>, coordinate: int)
    requires IsStandardTiles(tiles)
    requires coordinate == 0 || coordinate == 7 || coordinate == 56 || coordinate == 63
    ensures Rooks.LegalMoves(OpeningView(tiles), StandardPiece(coordinate)) == []
  {
    var view := OpeningView(tiles);
    var rook := StandardPiece(coordinate);
    var vectors := Rooks.CandidateMoveVectorCoordinates;
    var rays := Sliding.Rays(view, rook, vectors, Rooks.IsExcluded);
    forall i | 0 <= i < |rays|
      ensures rays[i] == []
    {
      RayBlocked(view, rook, vectors[i], Rooks.IsExcluded);
    }
    FlattenEmpty(rays);
  }

  /** The queens are surrounded by their own pieces and the edge of the board. */
  lemma QueenOpening(tiles: seq<Tile>, coordinate: int)
    requires IsStandardTiles(tiles)
    requires coordinate == 3 || coordinate == 59
    ensures Queens.LegalMoves(OpeningView(tiles), StandardPiece(coordinate)) == []
  {
    var view := OpeningView(tiles);
    var queen := StandardPiece(coordinate);
    var vectors := Queens.CandidateMoveVectorCoordinates;
    var rays := Sliding.Rays(view, queen, vectors, Queens.IsExcluded);
    forall i | 0 <= i < |rays|
      ensures rays[i] == []
    {
      RayBlocked(view, queen, vectors[i], Queens.IsExcluded);
    }
    FlattenEmpty(rays);
  }

  /** Every standard piece generates exactly its opening moves. */
  lemma PieceOpening(tiles: seq<Tile>, coordinate: int)
    requires IsStandardTiles(tiles)
    requires 0 <= coordinate < 16 || 48 <= coordinate < NumTiles
    ensures PieceMoves(OpeningView(tiles), StandardPiece(coordinate)) == OpeningMoves(coordinate)
  {
    var c := coordinate;
    var file := if c < 16 then c else c - 56;
    if 8 <= c < 56 {
      PawnOpening(tiles, c);
    } else if file == 1 || file == 6 {
      KnightOpening(tiles, c);
    } else if file == 2 || file == 5 {
      BishopOpening(tiles, c);
    } else if file == 0 || file == 7 {
      RookOpening(tiles, c);
    } else if file == 3 {
      QueenOpening(tiles, c);
    } else {
      KingOpening(tiles, c);
    }
  }

  /** The white pieces' opening moves, piece by piece in tile order. */
  function WhiteOpening(): seq<seq<Move>>
  {
    seq(16, j requires 0 <= j < 16 => OpeningMoves(48 + j))
  }

  /** The black pieces' opening moves, piece by piece in tile order. */
  function BlackOpening(): seq<seq<Move>>
  {
    seq(16, j requires 0 <= j < 16 => OpeningMoves(j))
  }

  /** calculateLegalMoves on each side's pieces of the standard board yields the opening moves. */
  lemma StandardPieceMoves(tiles: seq<Tile>)
    requires IsStandardTiles(tiles)
    ensures AllPieceMoves(OpeningView(tiles), ActivePieces(tiles, White)) == Flatten(WhiteOpening())
    ensures AllPieceMoves(OpeningView(tiles), ActivePieces(tiles, Black)) == Flatten(BlackOpening())
  {
    var view := OpeningView(tiles);
    StandardActivePieces(tiles);
    forall j | 0 <= j < 16
      ensures PieceMoveLists(view, WhitePieces())[j] == WhiteOpening()[j]
      ensures PieceMoveLists(view, BlackPieces())[j] == BlackOpening()[j]
    {
      PieceOpening(tiles, 48 + j);
      PieceOpening(tiles, j);
    }
    assert PieceMoveLists(view, WhitePieces()) == WhiteOpening();
    assert PieceMoveLists(view, BlackPieces()) == BlackOpening();
  }

  /** The number of opening moves of the first k white pieces: two per pawn, then two per knight. */
  lemma {:induction false} WhiteOpeningLength(k: nat)
    requires k <= 16
    ensures TotalLength(WhiteOpening()[..k]) ==
              if k <= 8 then 2 * k else if k <= 9 then 16 else if k <= 14 then 18 else 20
  {
    if k > 0 {
      WhiteOpeningLength(k - 1);
      assert WhiteOpening()[..k][..k - 1] == WhiteOpening()[..k - 1];
    }
  }

  /** The number of opening moves of the first k black pieces: two per knight, then two per pawn. */
  lemma {:induction false} BlackOpeningLength(k: nat)
    requires k <= 16
    ensures TotalLength(BlackOpening()[..k]) ==
              if k <= 1 then 0 else if k <= 6 then 2 else if k <= 8 then 4 else 4 + 2 * (k - 8)
  {
    if k > 0 {
      BlackOpeningLength(k - 1);
      assert BlackOpening()[..k][..k - 1] == BlackOpening()[..k - 1];
    }
  }

  /** Each side has twenty opening moves; White's land on ranks three and four, Black's on ranks six and five. */
  lemma OpeningCounts()
    ensures |Flatten(WhiteOpening())| == 20 && |Flatten(BlackOpening())| == 20
    ensures forall m :: m in Flatten(WhiteOpening()) ==> 32 <= m.GetDestinationCoordinate() < 48
    ensures forall m :: m in Flatten(BlackOpening()) ==> 16 <= m.GetDestinationCoordinate() < 32
  {
    WhiteOpeningLength(16);
    BlackOpeningLength(16);
    assert WhiteOpening()[..16] == WhiteOpening();
    assert BlackOpening()[..16] == BlackOpening();
    FlattenLength(WhiteOpening());
    FlattenLength(BlackOpening());
    forall m | m in Flatten(WhiteOpening())
      ensures 32 <= m.GetDestinationCoordinate() < 48
    {
      FlattenMember(WhiteOpening(), m);
    }
    forall m | m in Flatten(BlackOpening())
      ensures 16 <= m.GetDestinationCoordinate() < 32
    {
      FlattenMember(BlackOpening(), m);
    }
  }

  /** The first king in each side's standard list is the one on the king's square. */
  lemma StandardKings()
    ensures FirstKing(WhitePieces()) == Some(WhitePieces()[12])
    ensures FirstKing(BlackPieces()) == Some(BlackPieces()[4])
  {
    forall j | 0 <= j < 12 ensures !WhitePieces()[j].pieceType.IsKing() {
      assert WhitePieces()[j] == StandardPiece(48 + j);
      if j >= 8 {
        assert StandardPieceKind(48 + j) == BackRank[j - 8];
      }
    }
    forall j | 0 <= j < 4 ensures !BlackPieces()[j].pieceType.IsKing() {
      assert BlackPieces()[j] == StandardPiece(j);
      assert StandardPieceKind(j) == BackRank[j];
    }
    assert WhitePieces()[12] == StandardPiece(60);
    assert BlackPieces()[4] == StandardPiece(4);
    FirstKingIs(WhitePieces(), 12);
    FirstKingIs(BlackPieces(), 4);
  }

  /** A king with no king before it is the first king. */
  lemma FirstKingIs(pieces: seq<Piece>, i: int)
    requires 0 <= i < |pieces| && pieces[i].pieceType.IsKing()
    requires forall j :: 0 <= j < i ==> !pieces[j].pieceType.IsKing()
    ensures FirstKing(pieces) == Some(pieces[i])
  {
    var k :| 0 <= k < |pieces| && pieces[k] == FirstKing(pieces).value && FirstKing(pieces).value.pieceType.IsKing() &&
             forall j :: 0 <= j < k ==> !pieces[j].pieceType.IsKing();
    assert k == i;
  }

  /** The standard board: its tiles, its piece lists, White to move, and the pseudo-legal moves of each side. */
  lemma StandardBoardShape(rule: CastleRule)
    ensures BuildBoard(StandardConfig(), Some(White), None, rule).Success?
    ensures var b := BuildBoard(StandardConfig(), Some(White), None, rule).value;
            var view := BoardView(b.gameBoard, None, None);
            && IsStandardTiles(b.gameBoard)
            && b.whitePieces == WhitePieces() && b.blackPieces == BlackPieces()
            && b.CurrentPlayer() == b.whitePlayer && b.PlayerOf(b.CurrentPlayer().alliance.Opponent()) == b.blackPlayer
            && AllPieceMoves(view, b.whitePieces) == Flatten(WhiteOpening())
            && AllPieceMoves(view, b.blackPieces) == Flatten(BlackOpening())
  {
    StandardBoardBuilds(rule);
    StandardGameBoard();
    var b := BuildBoard(StandardConfig(), Some(White), None, rule).value;
    StandardActivePieces(b.gameBoard);
    StandardPieceMoves(b.gameBoard);
  }

  /** The standard board's white player: king on e1, the opening moves plus the castles, in check exactly when a black move lands on e1. */
  lemma StandardWhitePlayer(rule: CastleRule)
    ensures BuildBoard(StandardConfig(), Some(White), None, rule).Success?
    ensures var b := BuildBoard(StandardConfig(), Some(White), None, rule).value;
            && b.whitePlayer.playerKing.piecePosition == 60
            && b.whitePlayer.legalMoves == Flatten(WhiteOpening()) + b.whitePlayer.kingCastleMoves
            && (b.whitePlayer.isInCheck <==> exists m :: m in Flatten(BlackOpening()) && m.GetDestinationCoordinate() == 60)
  {
    StandardBoardShape(rule);
    BuiltPlayers(StandardConfig(), Some(White), None, rule);
    StandardKings();
  }

  /** The standard board's black player: king on e8, the opening moves plus the castles, in check exactly when a white move lands on e8. */
  lemma StandardBlackPlayer(rule: CastleRule)
    ensures BuildBoard(StandardConfig(), Some(White), None, rule).Success?
    ensures var b := BuildBoard(StandardConfig(), Some(White), None, rule).value;
            && b.blackPlayer.playerKing.piecePosition == 4
            && b.blackPlayer.legalMoves == Flatten(BlackOpening()) + b.blackPlayer.kingCastleMoves
            && (b.blackPlayer.isInCheck <==> exists m :: m in Flatten(WhiteOpening()) && m.GetDestinationCoordinate() == 4)
  {
    StandardBoardShape(rule);
    BuiltPlayers(StandardConfig(), Some(White), None, rule);
    StandardKings();
  }

  /**
   * ChessBoardTest on createStandardBoard: the board builds with the standard layout and White to
   * move; each side's legal moves are its twenty opening moves followed by whatever castles the
   * castling rule grants; neither side is in check, so neither is checkmated.
   */
  lemma StandardBoardFacts(rule: CastleRule)
    ensures BuildBoard(StandardConfig(), Some(White), None, rule).Success?
    ensures var b := BuildBoard(StandardConfig(), Some(White), None, rule).value;
            && IsStandardTiles(b.gameBoard)
            && b.whitePieces == WhitePieces() && b.blackPieces == BlackPieces()
            && b.CurrentPlayer() == b.whitePlayer && b.PlayerOf(b.CurrentPlayer().alliance.Opponent()) == b.blackPlayer
            && b.whitePlayer.playerKing.piecePosition == 60 && b.blackPlayer.playerKing.piecePosition == 4
            && b.whitePlayer.legalMoves == Flatten(WhiteOpening()) + b.whitePlayer.kingCastleMoves
            && b.blackPlayer.legalMoves == Flatten(BlackOpening()) + b.blackPlayer.kingCastleMoves
            && |b.whitePlayer.legalMoves| == 20 + |b.whitePlayer.kingCastleMoves|
            && |b.blackPlayer.legalMoves| == 20 + |b.blackPlayer.kingCastleMoves|
            && !b.whitePlayer.isInCheck && !b.blackPlayer.isInCheck
            && Play.IsInCheckMate(b, White, rule) == Success(false)
            && Play.IsInCheckMate(b, Black, rule) == Success(false)
  {
    StandardBoardShape(rule);
    StandardWhitePlayer(rule);
    StandardBlackPlayer(rule);
    OpeningCounts();
  }
}
