/**
 * The packed move word of the engine (common.h, lines 75-131).
 *
 * A move is an unsigned 32-bit word. The layout documented beside the type:
 * bits 0-5 start square, bits 6-11 end square, bits 12-15 piece index,
 * bits 16-19 promotion piece (0 for none), bit 20 capture, bit 21 castle,
 * bits 22-31 unused.
 *
 * The C `int` arguments and results of the codec are 32-bit two's-complement
 * words, modelled as `bv32`. The arguments of encodeMove are converted to
 * `uint32_t` (which keeps their bits) before they are OR-ed into the move.
 * setPromotion first shifts its `int` argument left by 16 as an `int`; the
 * model takes the 32-bit shift of its bit pattern, which is what C++20
 * defines (a negative or overflowing shift is undefined before C++20).
 * A C `bool` used as an integer is 0 or 1 (FlagBit).
 */
module Moves {

  import Pieces

  type Move = bv32

  /** NULL_MOVE: the all-zero word stands for "no move". */
  const NullMove: Move := 0

  /** A C `bool` used as an integer. */
  function FlagBit(b: bool): (w: bv32)
    ensures w <= 1
    ensures w == 1 <==> b
  {
    if b then 1 else 0
  }

  // ---------------------------------------------------------------------------
  // Construction, as written in the source
  // ---------------------------------------------------------------------------

  /**
   * encodeMove: the capture flag is OR-ed in first and then shifted left by
   * 9, 6 and 6 bits, the piece by 6 and 6, the end square by 6; the start
   * square lands unshifted.
   */
  function EncodeMove(startSq: bv32, endSq: bv32, piece: bv32, isCapture: bool): (m: Move)
    ensures GetStartSq(m) == startSq % 64
    ensures startSq < 64 && endSq < 64 && piece < 16 ==> m < 0x40_0000
  {
    var withCapture := NullMove | FlagBit(isCapture);
    var withPiece := (withCapture << 9) | piece;
    var withEnd := (withPiece << 6) | endSq;
    (withEnd << 6) | startSq
  }

  /**
   * setPromotion: OR the promotion piece, shifted to bit 16, into the move.
   * The result is the move with at most some bits from 16 up added: no bit
   * is cleared, and start square, end square and piece are untouched.
   */
  function SetPromotion(m: Move, promotion: bv32): (r: Move)
    ensures r == m | (r & 0xFFFF_0000)
  {
    m | (promotion << 16)
  }

  /**
   * setCastle: OR the castle flag, shifted to bit 21, into the move. The
   * result is the move with at most bit 21 added.
   */
  function SetCastle(m: Move, isCastle: bool): (r: Move)
    ensures r == m | (r & 0x20_0000)
  {
    m | (FlagBit(isCastle) << 21)
  }

  // ---------------------------------------------------------------------------
  // Accessors; each is stated against the word read as a number
  // ---------------------------------------------------------------------------

  function GetStartSq(m: Move): (sq: bv32)
    ensures sq < 64
    ensures sq == m % 64
  {
    m & 0x3F
  }

  function GetEndSq(m: Move): (sq: bv32)
    ensures sq < 64
    ensures sq == m / 64 % 64
  {
    (m >> 6) & 0x3F
  }

  function GetPiece(m: Move): (piece: bv32)
    ensures piece < 16
    ensures piece == m / 0x1000 % 16
  {
    (m >> 12) & 0xF
  }

  function GetPromotion(m: Move): (promotion: bv32)
    ensures promotion < 16
    ensures promotion == m / 0x1_0000 % 16
  {
    (m >> 16) & 0xF
  }

  function IsCapture(m: Move): (capture: bool)
    ensures capture <==> m / 0x10_0000 % 2 == 1
  {
    (m >> 20) & 1 == 1
  }

  function IsCastle(m: Move): (castle: bool)
    ensures castle <==> m / 0x20_0000 % 2 == 1
  {
    (m >> 21) & 1 == 1
  }

  // ---------------------------------------------------------------------------
  // What encodeMove yields
  // ---------------------------------------------------------------------------

  /**
   * For in-range arguments the word is the positional sum of the fields, with
   * the capture flag worth 2^21 (the castle position), not 2^20.
   */
  lemma EncodeMoveValue(s: bv32, e: bv32, p: bv32, c: bool)
    requires s < 64 && e < 64 && p < 16
    ensures EncodeMove(s, e, p, c) == s + 64 * e + 0x1000 * p + (if c then 0x20_0000 else 0)
  {
  }

  /** Start square, end square and piece come back out; no promotion is set. */
  lemma EncodeMoveFields(s: bv32, e: bv32, p: bv32, c: bool)
    requires s < 64 && e < 64 && p < 16
    ensures GetStartSq(EncodeMove(s, e, p, c)) == s
    ensures GetEndSq(EncodeMove(s, e, p, c)) == e
    ensures GetPiece(EncodeMove(s, e, p, c)) == p
    ensures GetPromotion(EncodeMove(s, e, p, c)) == 0
  {
  }

  /**
   * The flags as the code sets them: the capture bit is never set, and the
   * capture argument is what isCastle reads back.
   */
  lemma EncodeMoveFlags(s: bv32, e: bv32, p: bv32, c: bool)
    requires s < 64 && e < 64 && p < 16
    ensures !IsCapture(EncodeMove(s, e, p, c))
    ensures IsCastle(EncodeMove(s, e, p, c)) == c
  {
  }

  /** A concrete capture: the documented round trip of the capture flag fails. */
  lemma EncodeMoveCaptureReadsAsCastle()
    ensures IsCapture(EncodeMove(12, 28, 2, true)) != true
    ensures IsCastle(EncodeMove(12, 28, 2, true))
  {
  }

  // ---------------------------------------------------------------------------
  // The encoder the layout describes
  // ---------------------------------------------------------------------------

  /**
   * encodeMove with the capture flag shifted by 8 rather than 9 before the
   * piece is OR-ed in, which puts it on bit 20 as the layout documents.
   */
  function EncodeMoveIntended(startSq: bv32, endSq: bv32, piece: bv32, isCapture: bool): (m: Move)
    ensures GetStartSq(m) == startSq % 64
    ensures startSq < 64 && endSq < 64 && piece < 16 ==> m < 0x20_0000
  {
    var withCapture := NullMove | FlagBit(isCapture);
    var withPiece := (withCapture << 8) | piece;
    var withEnd := (withPiece << 6) | endSq;
    (withEnd << 6) | startSq
  }

  /** Every field the layout documents reads back what was encoded. */
  lemma EncodeMoveIntendedRoundTrip(s: bv32, e: bv32, p: bv32, c: bool)
    requires s < 64 && e < 64 && p < 16
    ensures GetStartSq(EncodeMoveIntended(s, e, p, c)) == s
    ensures GetEndSq(EncodeMoveIntended(s, e, p, c)) == e
    ensures GetPiece(EncodeMoveIntended(s, e, p, c)) == p
    ensures GetPromotion(EncodeMoveIntended(s, e, p, c)) == 0
    ensures IsCapture(EncodeMoveIntended(s, e, p, c)) == c
    ensures !IsCastle(EncodeMoveIntended(s, e, p, c))
  {
  }

  /** The two encoders agree on every move that is not a capture. */
  lemma EncodersAgreeWithoutCapture(s: bv32, e: bv32, p: bv32)
    ensures EncodeMove(s, e, p, false) == EncodeMoveIntended(s, e, p, false)
  {
    assert NullMove | FlagBit(false) == 0;
  }

  // ---------------------------------------------------------------------------
  // The OR-only setters
  // ---------------------------------------------------------------------------

  /**
   * setPromotion ORs into the promotion field: an empty field then reads
   * back the promotion, and every other field is kept.
   */
  lemma SetPromotionFields(m: Move, q: bv32)
    requires q < 16
    ensures GetPromotion(SetPromotion(m, q)) == GetPromotion(m) | q
    ensures GetPromotion(m) == 0 ==> GetPromotion(SetPromotion(m, q)) == q
    ensures GetStartSq(SetPromotion(m, q)) == GetStartSq(m)
    ensures GetEndSq(SetPromotion(m, q)) == GetEndSq(m)
    ensures GetPiece(SetPromotion(m, q)) == GetPiece(m)
    ensures IsCapture(SetPromotion(m, q)) == IsCapture(m)
    ensures IsCastle(SetPromotion(m, q)) == IsCastle(m)
  {
  }

  /** setCastle with false leaves the move as it was. */
  lemma SetCastleFalse(m: Move)
    ensures SetCastle(m, false) == m
  {
  }

  /**
   * setCastle ORs the flag in: the castle bit afterwards is the old bit or
   * the argument (so it cannot be cleared), and every other field is kept.
   */
  lemma SetCastleFields(m: Move, b: bool)
    ensures IsCastle(SetCastle(m, b)) == (IsCastle(m) || b)
    ensures GetStartSq(SetCastle(m, b)) == GetStartSq(m)
    ensures GetEndSq(SetCastle(m, b)) == GetEndSq(m)
    ensures GetPiece(SetCastle(m, b)) == GetPiece(m)
    ensures GetPromotion(SetCastle(m, b)) == GetPromotion(m)
    ensures IsCapture(SetCastle(m, b)) == IsCapture(m)
  {
  }

  /** A piece index fits the 4-bit piece field and reads back unchanged. */
  lemma EncodeMovePieceIndex(s: bv32, e: bv32, color: int, pieceType: int, c: bool)
    requires s < 64 && e < 64
    requires Pieces.IsColor(color) && Pieces.IsPieceType(pieceType)
    ensures GetPiece(EncodeMove(s, e, Pieces.PieceIndex(color, pieceType) as bv32, c)) as int
            == Pieces.PieceIndex(color, pieceType)
  {
    var k := Pieces.PieceIndex(color, pieceType);
    EncodeMoveFields(s, e, k as bv32, c);
  }

  // ---------------------------------------------------------------------------
  // The null move
  // ---------------------------------------------------------------------------

  /**
   * NULL_MOVE decodes as a black pawn (piece index 0) going from square 0 to
   * square 0, with no promotion and neither flag.
   */
  lemma NullMoveDecoding()
    ensures GetStartSq(NullMove) == 0 && GetEndSq(NullMove) == 0
    ensures GetPiece(NullMove) as int == Pieces.PieceIndex(Pieces.Black, Pieces.Pawns)
    ensures GetPromotion(NullMove) == 0 && !IsCapture(NullMove) && !IsCastle(NullMove)
  {
  }

  /** No move whose start and end squares differ encodes to NULL_MOVE. */
  lemma EncodedMoveIsNotNull(s: bv32, e: bv32, p: bv32, c: bool)
    requires s < 64 && e < 64 && p < 16
    ensures s != e ==> EncodeMove(s, e, p, c) != NullMove
  {
  }

  /**
   * A pawn promotion built as the engine builds it: encode the move, then set
   * the promotion piece.
   */
  lemma PromotionExample()
    ensures var m := SetPromotion(EncodeMove(12, 28, 2, false), 9);
      GetStartSq(m) == 12 && GetEndSq(m) == 28 && GetPiece(m) == 2 &&
      !IsCapture(m) && GetPromotion(m) == 9 && !IsCastle(m)
  {
  }
}
