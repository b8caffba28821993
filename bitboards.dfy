/**
 * The square-to-mask table of the engine (common.h, lines 40-58). A 64-bit
 * board mask holds a set of squares: bit i is set when square i is in the set.
 */
module Bitboards {

  type Bitboard = bv64

  /** Whether square sq is in the mask. */
  predicate HasSquare(mask: Bitboard, sq: nat)
    requires sq < 64
  {
    (mask >> sq) & 1 == 1
  }

  /**
   * MOVEMASK: the singleton mask of every square, with the literal entries of
   * the source, one source line (four squares) per row.
   */
  const MoveMask: seq<Bitboard> :=
    [0x0000000000000001, 0x0000000000000002, 0x0000000000000004, 0x0000000000000008] +
    [0x0000000000000010, 0x0000000000000020, 0x0000000000000040, 0x0000000000000080] +
    [0x0000000000000100, 0x0000000000000200, 0x0000000000000400, 0x0000000000000800] +
    [0x0000000000001000, 0x0000000000002000, 0x0000000000004000, 0x0000000000008000] +
    [0x0000000000010000, 0x0000000000020000, 0x0000000000040000, 0x0000000000080000] +
    [0x0000000000100000, 0x0000000000200000, 0x0000000000400000, 0x0000000000800000] +
    [0x0000000001000000, 0x0000000002000000, 0x0000000004000000, 0x0000000008000000] +
    [0x0000000010000000, 0x0000000020000000, 0x0000000040000000, 0x0000000080000000] +
    [0x0000000100000000, 0x0000000200000000, 0x0000000400000000, 0x0000000800000000] +
    [0x0000001000000000, 0x0000002000000000, 0x0000004000000000, 0x0000008000000000] +
    [0x0000010000000000, 0x0000020000000000, 0x0000040000000000, 0x0000080000000000] +
    [0x0000100000000000, 0x0000200000000000, 0x0000400000000000, 0x0000800000000000] +
    [0x0001000000000000, 0x0002000000000000, 0x0004000000000000, 0x0008000000000000] +
    [0x0010000000000000, 0x0020000000000000, 0x0040000000000000, 0x0080000000000000] +
    [0x0100000000000000, 0x0200000000000000, 0x0400000000000000, 0x0800000000000000] +
    [0x1000000000000000, 0x2000000000000000, 0x4000000000000000, 0x8000000000000000]

  /** The table, read with a bit-vector square index, is a left shift of 1. */
  lemma MoveMaskShift(sq: bv64)
    requires sq < 64
    ensures |MoveMask| == 64
    ensures MoveMask[sq as int] == 1 << sq
  {
  }

  /** A left shift of 1 by sq has bit j set exactly when j is sq. */
  lemma ShiftHoldsOnlySquare(sq: bv64, j: bv64)
    requires sq < 64 && j < 64
    ensures (((1 as Bitboard) << sq) >> j) & 1 == 1 <==> j == sq
  {
  }

  /** A mask equal to 1 << sq holds square sq and no other square. */
  lemma SingletonMask(mask: Bitboard, sq: nat)
    requires sq < 64 && mask == 1 << sq
    ensures forall j: nat | j < 64 :: HasSquare(mask, j) <==> j == sq
  {
    forall j: nat | j < 64
      ensures HasSquare(mask, j) <==> j == sq
    {
      ShiftHoldsOnlySquare(sq as bv64, j as bv64);
    }
  }

  /** Entry sq of the table is 1 shifted left by sq: it holds square sq and no other. */
  lemma MoveMaskSingleton(sq: nat)
    requires sq < 64
    ensures |MoveMask| == 64
    ensures MoveMask[sq] == 1 << sq
    ensures HasSquare(MoveMask[sq], sq)
    ensures forall j: nat | j < 64 && j != sq :: !HasSquare(MoveMask[sq], j)
  {
    MoveMaskShift(sq as bv64);
    SingletonMask(MoveMask[sq], sq);
  }
}
