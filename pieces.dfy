/**
 * Piece identities of the engine (common.h, lines 12-22).
 *
 * A piece is identified by the sum of its color sign (+1 white, -1 black) and
 * a type magnitude chosen so that the twelve sums are exactly 0..11; other
 * parts of the engine index tables by that sum.
 */
module Pieces {

  const White: int := 1
  const Black: int := -1

  const Pawns: int := 1
  const Knights: int := 2
  const Bishops: int := 5
  const Rooks: int := 6
  const Queens: int := 9
  const Kings: int := 10

  /** Number of distinct piece identities. */
  const PieceKinds: int := 12

  predicate IsColor(color: int) {
    color == White || color == Black
  }

  predicate IsPieceType(pieceType: int) {
    pieceType == Pawns || pieceType == Knights || pieceType == Bishops ||
    pieceType == Rooks || pieceType == Queens || pieceType == Kings
  }

  /** The index of a (color, type) pair: type plus color sign. */
  function PieceIndex(color: int, pieceType: int): (k: int)
    requires IsColor(color) && IsPieceType(pieceType)
    ensures 0 <= k < PieceKinds
    ensures color == White <==> k % 4 >= 2
  {
    pieceType + color
  }

  /** Different pieces never share an index. */
  lemma PieceIndexInjective(c1: int, t1: int, c2: int, t2: int)
    requires IsColor(c1) && IsPieceType(t1)
    requires IsColor(c2) && IsPieceType(t2)
    ensures PieceIndex(c1, t1) == PieceIndex(c2, t2) <==> c1 == c2 && t1 == t2
  {
  }

  /** Color and type of the piece with index k; the inverse of PieceIndex. */
  function PieceOfIndex(k: int): (ct: (int, int))
    requires 0 <= k < PieceKinds
    ensures IsColor(ct.0) && IsPieceType(ct.1)
    ensures PieceIndex(ct.0, ct.1) == k
  {
    var color := if k % 4 == 2 || k % 4 == 3 then White else Black;
    (color, k - color)
  }

  /** The numbering is dense: every index in 0..11 belongs to a piece. */
  lemma PieceIndexOnto(k: int)
    requires 0 <= k < PieceKinds
    ensures exists c, t :: IsColor(c) && IsPieceType(t) && PieceIndex(c, t) == k
  {
    var ct := PieceOfIndex(k);
    assert IsColor(ct.0) && IsPieceType(ct.1) && PieceIndex(ct.0, ct.1) == k;
  }

  /** The two examples given beside the constants. */
  lemma PieceIndexExamples()
    ensures PieceIndex(White, Pawns) == 2
    ensures PieceIndex(Black, Rooks) == 5
    ensures PieceIndex(Black, Pawns) == 0
  {
  }
}
