/**
 * The walk that Bishop, Rook and Queen share: from the piece's square, repeatedly stop if the
 * piece's edge exclusion fires on the current square, otherwise step by the vector; stop off the
 * board; keep going over empty squares; end on the first occupied square, capturing it when it
 * holds an opponent's piece. Each piece class passes its own exclusion predicate.
 */
module Sliding {
  import opened Seqs
  import opened Squares
  import opened Pieces
  import opened Moves
  import opened BoardViews

  /** A measure that shrinks with every step along a non-zero vector. */
  function Remaining(offset: int, coordinate: int): int
  {
    if offset > 0 then NumTiles - coordinate else coordinate + 1
  }

  /** The moves the inner while loop adds when it starts on `coordinate`. */
  function Walk(view: BoardView, piece: Piece, offset: int, coordinate: int, excluded: (int, int) -> bool): seq<Move>
    requires view.Valid() && offset != 0 && IsValidTileCoordinate(coordinate)
    decreases Remaining(offset, coordinate)
  {
    if excluded(coordinate, offset) then []
    else
      var next := coordinate + offset;
      if !IsValidTileCoordinate(next) then []
      else if !view.IsOccupied(next) then [MajorMove(piece, next)] + Walk(view, piece, offset, next, excluded)
      else if view.IsEnemyAt(piece, next) then [MajorAttackMove(piece, next, view.tiles[next].pieceOnTile)]
      else []
  }

  /** The walk from the piece's own square; a piece off the board walks nowhere. */
  function Ray(view: BoardView, piece: Piece, offset: int, excluded: (int, int) -> bool): seq<Move>
    requires view.Valid() && offset != 0
  {
    if IsValidTileCoordinate(piece.piecePosition) then Walk(view, piece, offset, piece.piecePosition, excluded) else []
  }

  predicate NonZero(vectors: seq<int>)
  {
    forall i :: 0 <= i < |vectors| ==> vectors[i] != 0
  }

  function Rays(view: BoardView, piece: Piece, vectors: seq<int>, excluded: (int, int) -> bool): seq<seq<Move>>
    requires view.Valid() && NonZero(vectors)
  {
    seq(|vectors|, i requires 0 <= i < |vectors| => Ray(view, piece, vectors[i], excluded))
  }

  /** calculateLegalMoves of a sliding piece as a value: its rays in vector order. */
  function SlidingMoves(view: BoardView, piece: Piece, vectors: seq<int>, excluded: (int, int) -> bool): seq<Move>
    requires view.Valid() && NonZero(vectors)
  {
    Flatten(Rays(view, piece, vectors, excluded))
  }

  /** The nested loops of Bishop, Rook and Queen calculateLegalMoves. */
  method CalculateSlidingMoves(view: BoardView, piece: Piece, vectors: seq<int>, excluded: (int, int) -> bool)
    returns (legalMoves: seq<Move>)
    requires view.Valid() && NonZero(vectors)
    ensures legalMoves == SlidingMoves(view, piece, vectors, excluded)
  {
    ghost var rays := Rays(view, piece, vectors, excluded);
    legalMoves := [];
    var i := 0;
    while i < |vectors|
      invariant 0 <= i <= |vectors|
      invariant legalMoves == Flatten(rays[..i])
    {
      var candidateCoordinateOffset := vectors[i];
      var candidateDestinationCoordinate := piece.piecePosition;
      ghost var start := legalMoves;
      FlattenPrefix(rays, i);
      while IsValidTileCoordinate(candidateDestinationCoordinate)
        invariant IsValidTileCoordinate(candidateDestinationCoordinate) ==>
          legalMoves + Walk(view, piece, candidateCoordinateOffset, candidateDestinationCoordinate, excluded) == start + rays[i]
        invariant !IsValidTileCoordinate(candidateDestinationCoordinate) ==> legalMoves == start + rays[i]
        decreases Remaining(candidateCoordinateOffset, candidateDestinationCoordinate)
      {
        if excluded(candidateDestinationCoordinate, candidateCoordinateOffset) {
          break;
        }
        candidateDestinationCoordinate := candidateDestinationCoordinate + candidateCoordinateOffset;
        if !IsValidTileCoordinate(candidateDestinationCoordinate) {
          break;
        }
        if !view.IsOccupied(candidateDestinationCoordinate) {
          legalMoves := legalMoves + [MajorMove(piece, candidateDestinationCoordinate)];
        } else {
          var pieceAtDestination := view.tiles[candidateDestinationCoordinate].pieceOnTile;
          if piece.pieceAlliance != pieceAtDestination.pieceAlliance {
            legalMoves := legalMoves + [MajorAttackMove(piece, candidateDestinationCoordinate, pieceAtDestination)];
          }
          break;
        }
      }
      i := i + 1;
    }
    assert rays[..i] == rays;
  }

  /** The walk's last square: where it started, or the destination of its last move. */
  function LastSquare(coordinate: int, w: seq<Move>): int
  {
    if w == [] then coordinate else w[|w| - 1].GetDestinationCoordinate()
  }

  /** A walk's moves are legal major steps from the start, one vector apart, and all but the last go to empty squares. */
  predicate StepsAlong(view: BoardView, piece: Piece, offset: int, coordinate: int, w: seq<Move>)
    requires view.Valid()
  {
    && (forall k :: 0 <= k < |w| ==> IsMajorStepMove(view, piece, w[k]))
    && (|w| > 0 ==> w[0].GetDestinationCoordinate() == coordinate + offset)
    && (forall k :: 0 <= k < |w| - 1 ==> w[k].MajorMove? && w[k + 1].GetDestinationCoordinate() == w[k].GetDestinationCoordinate() + offset)
  }

  /** A walk that does not end on a capture ends where the next step is excluded, off the board, or onto a friendly piece. */
  predicate EndsWalk(view: BoardView, piece: Piece, offset: int, coordinate: int, excluded: (int, int) -> bool, w: seq<Move>)
    requires view.Valid()
  {
    w == [] || w[|w| - 1].MajorMove? ==>
      var last := LastSquare(coordinate, w);
      var next := last + offset;
      excluded(last, offset) || !IsValidTileCoordinate(next) ||
      (view.IsOccupied(next) && !view.IsEnemyAt(piece, next))
  }

  /**
   * The shape of a walk: its moves step by the vector from the start, each is a legal major step,
   * every move but the last goes to an empty square, and the walk ends on the first occupied square
   * (a capture) or where the next step is excluded, off the board, or onto a friendly piece.
   */
  predicate IsWalk(view: BoardView, piece: Piece, offset: int, coordinate: int, excluded: (int, int) -> bool, w: seq<Move>)
    requires view.Valid() && IsValidTileCoordinate(coordinate)
  {
    StepsAlong(view, piece, offset, coordinate, w) && EndsWalk(view, piece, offset, coordinate, excluded, w)
  }

  lemma WalkShape(view: BoardView, piece: Piece, offset: int, coordinate: int, excluded: (int, int) -> bool)
    requires view.Valid() && offset != 0 && IsValidTileCoordinate(coordinate)
    ensures IsWalk(view, piece, offset, coordinate, excluded, Walk(view, piece, offset, coordinate, excluded))
  {
    WalkSteps(view, piece, offset, coordinate, excluded);
    WalkEnds(view, piece, offset, coordinate, excluded);
  }

  lemma {:induction false} WalkSteps(view: BoardView, piece: Piece, offset: int, coordinate: int, excluded: (int, int) -> bool)
    requires view.Valid() && offset != 0 && IsValidTileCoordinate(coordinate)
    ensures StepsAlong(view, piece, offset, coordinate, Walk(view, piece, offset, coordinate, excluded))
    decreases Remaining(offset, coordinate)
  {
    var w := Walk(view, piece, offset, coordinate, excluded);
    var next := coordinate + offset;
    if !excluded(coordinate, offset) && IsValidTileCoordinate(next) && !view.IsOccupied(next) {
      var rest := Walk(view, piece, offset, next, excluded);
      WalkSteps(view, piece, offset, next, excluded);
      assert w == [MajorMove(piece, next)] + rest;
      assert forall k :: 1 <= k < |w| ==> w[k] == rest[k - 1];
      assert IsMajorStepMove(view, piece, w[0]);
      forall k | 0 <= k < |w| - 1
        ensures w[k].MajorMove? && w[k + 1].GetDestinationCoordinate() == w[k].GetDestinationCoordinate() + offset
      {
        if k > 0 {
          assert w[k] == rest[k - 1] && w[k + 1] == rest[k];
        }
      }
    }
  }

  lemma {:induction false} WalkEnds(view: BoardView, piece: Piece, offset: int, coordinate: int, excluded: (int, int) -> bool)
    requires view.Valid() && offset != 0 && IsValidTileCoordinate(coordinate)
    ensures EndsWalk(view, piece, offset, coordinate, excluded, Walk(view, piece, offset, coordinate, excluded))
    decreases Remaining(offset, coordinate)
  {
    var w := Walk(view, piece, offset, coordinate, excluded);
    var next := coordinate + offset;
    if !excluded(coordinate, offset) && IsValidTileCoordinate(next) && !view.IsOccupied(next) {
      var rest := Walk(view, piece, offset, next, excluded);
      WalkEnds(view, piece, offset, next, excluded);
      assert w == [MajorMove(piece, next)] + rest;
      assert LastSquare(coordinate, w) == LastSquare(next, rest);
      assert rest != [] ==> w[|w| - 1] == rest[|rest| - 1];
    }
  }

  /**
   * Where the vector's next square is on the board, the exclusion fires exactly when that square
   * is not the genuine neighbour in the vector's direction, that is, when the step would wrap
   * around to the other edge.
   */
  predicate StepGuarded(excluded: (int, int) -> bool, offset: int, coordinate: int)
  {
    IsValidTileCoordinate(coordinate) && IsValidTileCoordinate(coordinate + offset) ==>
      (excluded(coordinate, offset) <==> !IsStep(coordinate, coordinate + offset, offset))
  }

  predicate GuardsEdges(excluded: (int, int) -> bool, offset: int)
  {
    forall coordinate | 0 <= coordinate < NumTiles :: StepGuarded(excluded, offset, coordinate)
  }

  /** When the exclusion guards the edges, every square a walk reaches lies on the vector's line: it never wraps around. */
  lemma {:induction false} WalkOnRay(view: BoardView, piece: Piece, offset: int, coordinate: int, excluded: (int, int) -> bool)
    requires view.Valid() && IsKingVector(offset) && IsValidTileCoordinate(coordinate)
    requires GuardsEdges(excluded, offset)
    ensures forall m :: m in Walk(view, piece, offset, coordinate, excluded) ==> OnRay(coordinate, m.GetDestinationCoordinate(), offset)
    decreases Remaining(offset, coordinate)
  {
    var next := coordinate + offset;
    if !excluded(coordinate, offset) && IsValidTileCoordinate(next) {
      assert StepGuarded(excluded, offset, coordinate);
      RayExtend(coordinate, coordinate, next, offset);
      if !view.IsOccupied(next) {
        WalkOnRay(view, piece, offset, next, excluded);
      }
    }
  }

  /** Two exclusion predicates that agree on a vector produce the same walks along it. */
  lemma {:induction false} WalkDependsOnlyOnExclusion(view: BoardView, piece: Piece, offset: int, coordinate: int,
                                                      excluded: (int, int) -> bool, other: (int, int) -> bool)
    requires view.Valid() && offset != 0 && IsValidTileCoordinate(coordinate)
    requires forall c :: excluded(c, offset) == other(c, offset)
    ensures Walk(view, piece, offset, coordinate, excluded) == Walk(view, piece, offset, coordinate, other)
    decreases Remaining(offset, coordinate)
  {
    var next := coordinate + offset;
    if !excluded(coordinate, offset) && IsValidTileCoordinate(next) && !view.IsOccupied(next) {
      WalkDependsOnlyOnExclusion(view, piece, offset, next, excluded, other);
    }
  }

  /**
   * Every move of a sliding piece whose exclusions guard its king-like vectors is a legal major
   * step onto the line of one of its vectors.
   */
  lemma {:induction false} SlidingMovesOnRays(view: BoardView, piece: Piece, vectors: seq<int>, excluded: (int, int) -> bool)
    requires view.Valid() && IsValidTileCoordinate(piece.piecePosition)
    requires forall i :: 0 <= i < |vectors| ==> IsKingVector(vectors[i]) && GuardsEdges(excluded, vectors[i])
    ensures NonZero(vectors)
    ensures forall m :: m in SlidingMoves(view, piece, vectors, excluded) ==>
              IsMajorStepMove(view, piece, m) &&
              exists i :: 0 <= i < |vectors| && OnRay(piece.piecePosition, m.GetDestinationCoordinate(), vectors[i])
  {
    var rays := Rays(view, piece, vectors, excluded);
    forall m | m in SlidingMoves(view, piece, vectors, excluded)
      ensures IsMajorStepMove(view, piece, m)
      ensures exists i :: 0 <= i < |vectors| && OnRay(piece.piecePosition, m.GetDestinationCoordinate(), vectors[i])
    {
      FlattenMember(rays, m);
      var i :| 0 <= i < |rays| && m in rays[i];
      var w := Walk(view, piece, vectors[i], piece.piecePosition, excluded);
      WalkShape(view, piece, vectors[i], piece.piecePosition, excluded);
      WalkOnRay(view, piece, vectors[i], piece.piecePosition, excluded);
      var k :| 0 <= k < |w| && w[k] == m;
    }
  }

  /** The square k steps along the vector from `from`. */
  function Along(from: int, offset: int, k: int): int
  {
    from + k * offset
  }

  /** The first n squares along the vector are on the board, each the genuine neighbour of the one before. */
  predicate StraightRun(from: int, offset: int, n: int)
  {
    forall k :: 1 <= k <= n ==>
      IsValidTileCoordinate(Along(from, offset, k)) && IsStep(Along(from, offset, k - 1), Along(from, offset, k), offset)
  }

  /** Every square before the nth along the vector is on the board and empty. */
  predicate ClearBefore(view: BoardView, from: int, offset: int, n: int)
    requires view.Valid()
  {
    forall k :: 1 <= k < n ==> IsValidTileCoordinate(Along(from, offset, k)) && !view.IsOccupied(Along(from, offset, k))
  }

  /** The nth square along the vector is reached from `from` without wrapping and without passing any piece. */
  predicate Reached(view: BoardView, from: int, offset: int, n: int)
    requires view.Valid()
  {
    1 <= n && StraightRun(from, offset, n) && ClearBefore(view, from, offset, n)
  }

  /** The first square along the vector is reached exactly when it is the genuine neighbour. */
  lemma ReachedOne(view: BoardView, from: int, offset: int)
    requires view.Valid()
    ensures Reached(view, from, offset, 1) <==>
              IsValidTileCoordinate(from + offset) && IsStep(from, from + offset, offset)
  {
    assert Along(from, offset, 0) == from && Along(from, offset, 1) == from + offset;
  }

  /** Reaching the (n + 1)th square is one empty genuine step followed by reaching the nth square from there. */
  lemma ReachedShift(view: BoardView, from: int, offset: int, n: int)
    requires view.Valid() && 1 <= n
    ensures Reached(view, from, offset, n + 1) <==>
              IsValidTileCoordinate(from + offset) && IsStep(from, from + offset, offset) &&
              !view.IsOccupied(from + offset) && Reached(view, from + offset, offset, n)
  {
    var next := from + offset;
    assert Along(from, offset, 0) == from && Along(from, offset, 1) == next;
    assert forall k {:trigger Along(next, offset, k)} :: Along(next, offset, k) == Along(from, offset, k + 1);
    if Reached(view, from, offset, n + 1) {
      forall k | 1 <= k <= n
        ensures IsValidTileCoordinate(Along(next, offset, k)) && IsStep(Along(next, offset, k - 1), Along(next, offset, k), offset)
      {
        assert Along(next, offset, k - 1) == Along(from, offset, k);
      }
    }
    if IsValidTileCoordinate(next) && IsStep(from, next, offset) && !view.IsOccupied(next) && Reached(view, next, offset, n) {
      forall k | 1 <= k <= n + 1
        ensures IsValidTileCoordinate(Along(from, offset, k)) && IsStep(Along(from, offset, k - 1), Along(from, offset, k), offset)
      {
        if k > 1 {
          assert Along(from, offset, k) == Along(next, offset, k - 1);
          assert Along(from, offset, k - 1) == Along(next, offset, k - 2);
        }
      }
      forall k | 1 <= k < n + 1
        ensures IsValidTileCoordinate(Along(from, offset, k)) && !view.IsOccupied(Along(from, offset, k))
      {
        if k > 1 {
          assert Along(from, offset, k) == Along(next, offset, k - 1);
        }
      }
    }
  }

  /** Move k of the walk goes to square k + 1 along the vector, and that square is reached. */
  predicate MovesReached(view: BoardView, coordinate: int, offset: int, w: seq<Move>)
    requires view.Valid()
  {
    forall k :: 0 <= k < |w| ==>
      w[k].GetDestinationCoordinate() == Along(coordinate, offset, k + 1) && Reached(view, coordinate, offset, k + 1)
  }

  /**
   * Under an exclusion that guards the edges, each move of a walk goes to a square along
   * the vector, and that square is reached without wrapping and without passing any piece.
   */
  lemma {:induction false} WalkReached(view: BoardView, piece: Piece, offset: int, coordinate: int, excluded: (int, int) -> bool)
    requires view.Valid() && offset != 0 && IsValidTileCoordinate(coordinate)
    requires GuardsEdges(excluded, offset)
    ensures MovesReached(view, coordinate, offset, Walk(view, piece, offset, coordinate, excluded))
    decreases Remaining(offset, coordinate)
  {
    var w := Walk(view, piece, offset, coordinate, excluded);
    var next := coordinate + offset;
    if !excluded(coordinate, offset) && IsValidTileCoordinate(next) {
      assert StepGuarded(excluded, offset, coordinate);
      ReachedOne(view, coordinate, offset);
      assert Along(coordinate, offset, 1) == next;
      if !view.IsOccupied(next) {
        var rest := Walk(view, piece, offset, next, excluded);
        WalkReached(view, piece, offset, next, excluded);
        assert w == [MajorMove(piece, next)] + rest;
        forall k | 0 <= k < |w|
          ensures w[k].GetDestinationCoordinate() == Along(coordinate, offset, k + 1) && Reached(view, coordinate, offset, k + 1)
        {
          if k > 0 {
            assert w[k] == rest[k - 1];
            assert rest[k - 1].GetDestinationCoordinate() == Along(next, offset, k) && Reached(view, next, offset, k);
            assert Along(next, offset, k) == Along(coordinate, offset, k + 1);
            ReachedShift(view, coordinate, offset, k);
          }
        }
        assert MovesReached(view, coordinate, offset, w);
      }
    }
  }

  /**
   * Conversely, under an exclusion that guards the edges, a walk reaches every square along the
   * vector that it can get to over empty squares without wrapping: a plain move when that square
   * is empty, a capture when it holds an opponent's piece.
   */
  lemma {:induction false} ReachedIsWalked(view: BoardView, piece: Piece, offset: int, coordinate: int,
                                           excluded: (int, int) -> bool, n: int)
    requires view.Valid() && offset != 0 && IsValidTileCoordinate(coordinate)
    requires GuardsEdges(excluded, offset)
    requires Reached(view, coordinate, offset, n)
    ensures IsValidTileCoordinate(Along(coordinate, offset, n))
    ensures forall m :: m in view.MajorStep(piece, Along(coordinate, offset, n)) ==> m in Walk(view, piece, offset, coordinate, excluded)
    decreases n
  {
    var next := coordinate + offset;
    var w := Walk(view, piece, offset, coordinate, excluded);
    if n == 1 {
      ReachedOne(view, coordinate, offset);
      assert StepGuarded(excluded, offset, coordinate);
      assert Along(coordinate, offset, 1) == next;
    } else {
      ReachedShift(view, coordinate, offset, n - 1);
      assert StepGuarded(excluded, offset, coordinate);
      assert Along(next, offset, n - 1) == Along(coordinate, offset, n);
      ReachedIsWalked(view, piece, offset, next, excluded, n - 1);
      assert w == [MajorMove(piece, next)] + Walk(view, piece, offset, next, excluded);
    }
  }

  /**
   * Every sliding move goes to some square along one of the vectors that the piece reaches
   * without wrapping and without passing any piece.
   */
  lemma {:induction false} SlidingMovesReached(view: BoardView, piece: Piece, vectors: seq<int>, excluded: (int, int) -> bool)
    requires view.Valid() && IsValidTileCoordinate(piece.piecePosition)
    requires forall i :: 0 <= i < |vectors| ==> IsKingVector(vectors[i]) && GuardsEdges(excluded, vectors[i])
    ensures NonZero(vectors)
    ensures forall m :: m in SlidingMoves(view, piece, vectors, excluded) ==>
              exists i, n :: 0 <= i < |vectors| && m.GetDestinationCoordinate() == Along(piece.piecePosition, vectors[i], n) &&
                             Reached(view, piece.piecePosition, vectors[i], n)
  {
    var rays := Rays(view, piece, vectors, excluded);
    forall m | m in SlidingMoves(view, piece, vectors, excluded)
      ensures exists i, n :: 0 <= i < |vectors| && m.GetDestinationCoordinate() == Along(piece.piecePosition, vectors[i], n) &&
                             Reached(view, piece.piecePosition, vectors[i], n)
    {
      FlattenMember(rays, m);
      var i :| 0 <= i < |rays| && m in rays[i];
      var w := Walk(view, piece, vectors[i], piece.piecePosition, excluded);
      WalkReached(view, piece, vectors[i], piece.piecePosition, excluded);
      assert m in w;
      var k :| 0 <= k < |w| && w[k] == m;
      assert w[k].GetDestinationCoordinate() == Along(piece.piecePosition, vectors[i], k + 1) &&
             Reached(view, piece.piecePosition, vectors[i], k + 1);
    }
  }

  /**
   * Every square along one of the vectors that the piece reaches without wrapping and without
   * passing any piece gives a sliding move: a plain move when it is empty, a capture when it
   * holds an opponent's piece.
   */
  lemma {:induction false} ReachedAreSlidingMoves(view: BoardView, piece: Piece, vectors: seq<int>, excluded: (int, int) -> bool,
                                                  i: int, n: int)
    requires view.Valid() && IsValidTileCoordinate(piece.piecePosition) && NonZero(vectors)
    requires 0 <= i < |vectors| && GuardsEdges(excluded, vectors[i])
    requires Reached(view, piece.piecePosition, vectors[i], n)
    ensures IsValidTileCoordinate(Along(piece.piecePosition, vectors[i], n))
    ensures forall m :: m in view.MajorStep(piece, Along(piece.piecePosition, vectors[i], n)) ==>
              m in SlidingMoves(view, piece, vectors, excluded)
  {
    var rays := Rays(view, piece, vectors, excluded);
    ReachedIsWalked(view, piece, vectors[i], piece.piecePosition, excluded, n);
    forall m | m in view.MajorStep(piece, Along(piece.piecePosition, vectors[i], n))
      ensures m in SlidingMoves(view, piece, vectors, excluded)
    {
      assert m in rays[i];
      FlattenMember(rays, m);
    }
  }
}
