/** Properties of the board operations that relate several cells or several
    calls: a piece is on at most one cell, and `addPiece` keeps it that way. */
module BoardProperties {
  import opened Wrappers
  import opened ChessPieces

  /** After `addPiece(p, row, column)` on a board where `p` was on at most one
      cell, `p` is on exactly one cell: the target. */
  lemma AddPieceOccupiesOnlyTarget(b: Board, p: Piece, row: int, column: int)
    requires b.Valid() && b.InBounds(row, column) && AtMostOnce(b.pieces, Some(p))
    ensures AddPiece(b, p, row, column).Returned?
    ensures OnlyAt(AddPiece(b, p, row, column).board.pieces, Some(p), (row, column))
  {
  }

  /** For every other piece `q`, `addPiece(p, row, column)` keeps the cells of
      `q` except the target, which `p` overwrites. */
  lemma AddPieceKeepsOtherPieces(b: Board, p: Piece, q: Piece, row: int, column: int)
    requires b.Valid() && q != p
    ensures forall i, j :: b.InBounds(i, j) ==>
              (AddPiece(b, p, row, column).board.pieces[i][j] == Some(q) <==>
               b.pieces[i][j] == Some(q) && (i, j) != (row, column))
  {
  }

  /** A piece standing on the target of `addPiece` leaves the board. */
  lemma AddPieceRemovesOverwrittenPiece(b: Board, p: Piece, q: Piece, row: int, column: int)
    requires b.Valid() && b.InBounds(row, column) && q != p
    requires b.pieces[row][column] == Some(q) && AtMostOnce(b.pieces, Some(q))
    ensures Absent(AddPiece(b, p, row, column).board.pieces, Some(q))
  {
  }

  /** `addPiece` keeps the board free of duplicated pieces. */
  lemma AddPiecePreservesNoDuplicates(b: Board, p: Piece, row: int, column: int)
    requires b.Valid() && NoDuplicates(b.pieces)
    ensures NoDuplicates(AddPiece(b, p, row, column).board.pieces)
  {
  }

  /** `addPiece` as written also keeps the board free of duplicated pieces,
      on the throwing path too: there it only empties a cell. */
  lemma AddPieceAsWrittenPreservesNoDuplicates(b: Board, p: Piece, row: int, column: int)
    requires b.Valid() && NoDuplicates(b.pieces)
    ensures NoDuplicates(AddPieceAsWritten(b, p, row, column).board.pieces)
  {
  }

  /** `removePieceAt` keeps the board free of duplicated pieces. */
  lemma RemovePieceAtPreservesNoDuplicates(b: Board, row: int, column: int)
    requires b.Valid() && NoDuplicates(b.pieces)
    ensures NoDuplicates(RemovePieceAt(b, row, column).board.pieces)
  {
  }

  /** After `addPiece(p, row, column)`, `findPiece(p)` answers `(row, column)`. */
  lemma FindPieceAfterAddPiece(b: Board, p: Piece, row: int, column: int)
    requires b.Valid() && b.InBounds(row, column) && AtMostOnce(b.pieces, Some(p))
    ensures FindPiece(AddPiece(b, p, row, column).board, Some(p)) == Some((row, column))
  {
  }

  /** Placing a piece again where it already stands changes nothing. */
  lemma AddPieceIdempotent(b: Board, p: Piece, row: int, column: int)
    requires b.Valid() && AtMostOnce(b.pieces, Some(p))
    ensures AddPiece(AddPiece(b, p, row, column).board, p, row, column) == AddPiece(b, p, row, column)
  {
    if b.InBounds(row, column) {
      var once := AddPiece(b, p, row, column).board;
      var twice := AddPiece(once, p, row, column).board;
      FindPieceAfterAddPiece(b, p, row, column);
      forall i | 0 <= i < |once.pieces|
        ensures twice.pieces[i] == once.pieces[i]
      {
        assert |twice.pieces[i]| == |once.pieces[i]|;
      }
      assert twice.pieces == once.pieces;
    }
  }

  /** Removing a piece right where `addPiece` put it takes it off the board.
      This is no inverse: the piece `addPiece` overwrote and the piece's
      previous cell are not restored. */
  lemma RemovePieceAtAfterAddPieceRemovesIt(b: Board, p: Piece, row: int, column: int)
    requires b.Valid() && b.InBounds(row, column) && AtMostOnce(b.pieces, Some(p))
    ensures Absent(RemovePieceAt(AddPiece(b, p, row, column).board, row, column).board.pieces, Some(p))
  {
  }

  /** The constructor names stand for distinct enum values, so comparing
      alignments, as `makeAllPiecesOfACertainAlignmentSelectable` does with
      the enum strings, is comparing the datatype values. */
  lemma AlignmentNameInjective(a: Alignment, a2: Alignment)
    ensures a.Name() == a2.Name() <==> a == a2
  {
  }

  /** As written, an out-of-range `addPiece` of a piece that is on the board
      throws after emptying the piece's cell, so the piece is on no cell. */
  lemma AddPieceAsWrittenLosesPiece(b: Board, p: Piece, row: int, column: int)
    requires b.Valid() && !b.InBounds(row, column)
    requires AtMostOnce(b.pieces, Some(p)) && !Absent(b.pieces, Some(p))
    ensures AddPieceAsWritten(b, p, row, column).Threw?
    ensures Absent(AddPieceAsWritten(b, p, row, column).board.pieces, Some(p))
  {
  }

  /** A concrete case: on a one-cell board holding `p`, `addPiece(p, 1, 0)`
      throws with `p` gone, while the corrected `AddPiece` keeps it in place. */
  lemma AddPieceAsWrittenLosesPieceExample()
    ensures var p := Piece(0, "img/PLACEHOLDER_JS.gif", Player);
            var b := Board(1, 1, [[Empty]], [[Some(p)]], [[NotClickable]], PlayerTurnStart);
            && AddPieceAsWritten(b, p, 1, 0).Threw?
            && AddPieceAsWritten(b, p, 1, 0).board.pieces == [[None]]
            && AddPiece(b, p, 1, 0) == Threw(b)
  {
    var p := Piece(0, "img/PLACEHOLDER_JS.gif", Player);
    var b := Board(1, 1, [[Empty]], [[Some(p)]], [[NotClickable]], PlayerTurnStart);
    assert FindPiece(b, Some(p)) == Some((0, 0));
    var cleared := ClearOldLocation(b, p);
    assert cleared.pieces[0][0] == None;
    assert |cleared.pieces| == 1 && |cleared.pieces[0]| == 1;
    assert cleared.pieces[0] == [None];
    assert cleared.pieces == [[None]];
  }
}
