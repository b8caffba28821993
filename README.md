# Chess engine primitives: move word, move list, square masks

A Dafny model of the header `common.h` of a UCI chess engine. The header defines
the value types that move generation and search build on:

- **Piece identities** (`pieces.dfy`, module `Pieces`): a piece is numbered by its
  type magnitude (pawn 1, knight 2, bishop 5, rook 6, queen 9, king 10) plus its
  color sign (white +1, black -1). The twelve pieces get exactly the indices 0..11.
- **Square masks** (`bitboards.dfy`, module `Bitboards`): the 64-entry `MOVEMASK`
  table maps a square to the 64-bit board mask that holds only that square. The
  table is written with the literal entries of the header, four squares per row.
- **Move word** (`moves.dfy`, module `Moves`): a move is a 32-bit word.
  `encodeMove` packs the start square, end square, piece and capture flag.
  `setPromotion` and `setCastle` OR more fields in. Six accessors read the fields
  back. The C `int` arguments and results are modelled as `bv32`. A C `int` is a
  32-bit two's-complement word, and the conversion to `uint32_t` before the OR
  keeps its bits. So "square in 0..63" is the unsigned condition `s < 64`.
  `encodeMove` is modelled exactly as written (see Findings). Beside it,
  `EncodeMoveIntended` is the encoder that the documented layout describes.
- **Move list** (`move_list.dfy`, module `MoveLists`): class `MoveList` holds an
  `array<Move>` of 128 slots and a `length` counter, both updated in place.
  `Contents()` is the list as a sequence. Every method states the new contents,
  and the mutating ones also state the new array. Removal shifts later entries
  left in a loop. It is specified by the sequence function `RemoveAt`, and lemmas
  about `RemoveAt` state that removal keeps the survivors in order, loses exactly
  one entry, and undoes an append.

The documented layout says the capture flag is bit 20. The code puts it on
bit 21, where the castle flag is documented to be. The model follows the code.

## Model

| member | source | states |
|---|---|---|
| `Pieces.PieceIndex` | common.h:12-22 | a piece's index (type plus color sign) lies in 0..11, and it is one of the upper two of its group of four exactly when the piece is white |
| `Pieces.PieceIndexInjective` | common.h:12-22 | two (color, type) pairs get the same index only if they are the same piece |
| `Pieces.PieceOfIndex` | common.h:12-14 | every index in 0..11 is the index of some valid (color, type) pair, which this function gives back |
| `Pieces.PieceIndexOnto` | common.h:12-14 | the numbering is dense: every index in 0..11 is used |
| `Pieces.PieceIndexExamples` | common.h:12-14 | white pawn is 2 and black rook is 5, the header comment's two examples; black pawn is 0, the lowest index |
| `Bitboards.MoveMaskShift` | common.h:40-58 | the table has 64 entries, and entry sq is 1 shifted left by sq, for a bit-vector index |
| `Bitboards.MoveMaskSingleton` | common.h:40-58 | for every square sq in 0..63, `MOVEMASK[sq] == 1 << sq`; the mask holds square sq and no other square |
| `Moves.GetStartSq` | common.h:109-111 | the start square is below 64 and equals the word modulo 64 |
| `Moves.GetEndSq` | common.h:113-115 | the end square is below 64 and equals the word divided by 64, modulo 64 |
| `Moves.GetPiece` | common.h:117-119 | the piece is below 16 and equals the word divided by 2^12, modulo 16 |
| `Moves.GetPromotion` | common.h:121-123 | the promotion is below 16 and equals the word divided by 2^16, modulo 16 |
| `Moves.IsCapture` | common.h:125-127 | true exactly when the word divided by 2^20 is odd |
| `Moves.IsCastle` | common.h:129-131 | true exactly when the word divided by 2^21 is odd |
| `Moves.EncodeMove` | common.h:89-99 | the source's OR and shift steps in order; its contract: the start-square field is the low six bits of the start argument, and for in-range fields the word fits in 22 bits (bits 22-31 are zero); its field behaviour is stated by `EncodeMoveValue`, `EncodeMoveFields` and `EncodeMoveFlags` |
| `Moves.SetPromotion` | common.h:101-103 | the source's OR of the shifted promotion; its contract: for any promotion value the result is m with at most some bits from 16 up added, so no bit is cleared and start, end and piece (bits 0-15) are kept; the promotion and flag fields are stated by `SetPromotionFields` |
| `Moves.SetCastle` | common.h:105-107 | the source's OR of the shifted flag; its contract: the result is m with at most bit 21 added, so no bit is cleared and no other bit changes; the castle field is stated by `SetCastleFalse` and `SetCastleFields` |
| `Moves.EncodeMoveIntended` | common.h:76-84 | the encoder of the documented layout (capture shifted by 8); its contract: the start-square field is the low six bits of the start argument, and for in-range fields the word fits in 21 bits; its round trip is stated by `EncodeMoveIntendedRoundTrip` |
| `Moves.EncodeMoveValue` | common.h:89-99 | for in-range fields the word equals start + 64·end + 2^12·piece, plus 2^21 for a capture |
| `Moves.EncodeMoveFields` | common.h:89-99 | for start and end in 0..63 and piece in 0..15, the start, end and piece read back unchanged and the promotion is 0 |
| `Moves.EncodeMoveFlags` | common.h:89-99 | as written, an encoded move never has the capture bit set, and its castle bit equals the capture argument |
| `Moves.EncodeMoveCaptureReadsAsCastle` | common.h:89-99 | `encodeMove(12, 28, 2, true)` reads back as not a capture but as a castle |
| `Moves.EncodeMoveIntendedRoundTrip` | common.h:76-84 | the encoder with the capture shift corrected gives back every documented field: start, end, piece, promotion 0, the capture flag, and no castle |
| `Moves.EncodersAgreeWithoutCapture` | common.h:89-99 | for non-captures, the code's encoder and the corrected one produce the same word |
| `Moves.EncodeMovePieceIndex` | common.h:12-22 | every piece index fits the 4-bit piece field of an encoded move and reads back as the same number |
| `Moves.SetPromotionFields` | common.h:101-103 | for a promotion in 0..15, the promotion field becomes the OR of the old field and the argument, so an empty field reads back the argument; start, end, piece, capture and castle are kept |
| `Moves.SetCastleFalse` | common.h:105-107 | `setCastle(m, false)` returns m unchanged |
| `Moves.SetCastleFields` | common.h:105-107 | the castle bit afterwards is the old bit OR the argument: `true` sets it and nothing clears it; start, end, piece, promotion and capture are kept |
| `Moves.NullMoveDecoding` | common.h:87 | NULL_MOVE reads as a black pawn (index 0) from square 0 to square 0, with no promotion and neither flag |
| `Moves.EncodedMoveIsNotNull` | common.h:87-99 | no in-range encoded move with different start and end squares equals NULL_MOVE |
| `Moves.PromotionExample` | common.h:101-103 | encoding 12 to 28 with piece 2, then setting promotion 9, reads back 12, 28, 2, no capture, promotion 9, no castle |
| `MoveLists.RemoveAt` | common.h:160-167 | removal at index i gives one entry fewer; entries before i stay, and entries after i move down by one |
| `MoveLists.RemoveAtMultiset` | common.h:160-167 | the old contents are the new contents plus the removed entry |
| `MoveLists.RemoveAtUndoesAppend` | common.h:149-167 | removing the entry just appended gives back the list from before the append |
| `MoveLists.RemoveAtKeepsOrder` | common.h:160-167 | any two surviving entries keep their relative order |
| `MoveLists.MoveList.constructor` | common.h:140-143 | a new list has a fresh 128-slot buffer and no moves |
| `MoveLists.MoveList.Size` | common.h:146 | the size is the number of moves in the list, at most 128 |
| `MoveLists.MoveList.Add` | common.h:149-152 | with a free slot, the contents become the old contents followed by m, and only the slot at the old length changes |
| `MoveLists.MoveList.Get` | common.h:154 | returns the entry at index i |
| `MoveLists.MoveList.Last` | common.h:156 | returns the last entry of a non-empty list |
| `MoveLists.MoveList.Set` | common.h:158 | only position i changes; it becomes m |
| `MoveLists.MoveList.Remove` | common.h:160-167 | returns the old entry at i; the contents become the old ones without that entry, in order; the array is shifted left from i, and the slot that was last in use keeps its value |
| `MoveLists.MoveList.Clear` | common.h:170-174 | the list gets a fresh 128-slot buffer and no moves, as a new list does |
| `MoveLists.RemoveMiddleOfThree` | common.h:149-167 | after appending m0, m1, m2 and removing index 1, the call returns m1, the list holds m0 then m2, and its size is 2 |
| `MoveLists.ClearThenAdd` | common.h:149-174 | after a clear, the next append is at index 0 and is the last entry, and the size is 1 |

## Findings

| source | as written | input that shows it | evidently intended | confidence | as-written member | corrected member |
|---|---|---|---|---|---|---|
| common.h:89-99 | the capture flag is shifted left by 9, then 6, then 6, so it lands on bit 21, the documented castle bit | `encodeMove(12, 28, 2, true)`: `isCapture` is false and `isCastle` is true | shift by 8 before OR-ing the piece, so the flag lands on bit 20 as the layout at common.h:76-84 documents | high; not executed | `Moves.EncodeMoveCaptureReadsAsCastle` | `Moves.EncodeMoveIntendedRoundTrip` |

`Moves.EncodeMoveFlags` states the as-written behaviour for all inputs.
`Moves.EncodersAgreeWithoutCapture` shows that the two encoders differ only on captures.
The setters, the accessors and the move list work on any word. None of them depends on which encoder built the word.

## Left out

- `bitScanForward`, `bitScanReverse` and `count` (common.h:71-73) are declared in the header, but their bodies are elsewhere. Those bodies are not part of this model, and neither is the `index64` table (common.h:60-69) that supports them.
- `moveToString` (common.h:133) is declared only. It is text presentation.
- Heap management is not modelled. This covers `new[]` in the constructor and in `clear`, `delete[]` in `clear` and in the destructor (common.h:141, 144, 171-172). Each allocation is a fresh 128-slot array. Release is not modelled.
- The slots of a fresh buffer are uninitialised in C++. In the model a new array's contents are arbitrary, and no contract reads a slot past `length` of a fresh buffer.
- The material and score constants, `MAX_DEPTH` (common.h:25-38) and `USE_INLINE_AS` (common.h:10) are plain configuration with no logic.
- Calls outside the documented contract are excluded by `requires` clauses and not modelled. Some of them are undefined behaviour in C++: `add` on a full list, `last` or `remove` on an empty list (the unsigned `length - 1` wraps), and `get`, `set` or `remove` with a negative index or one of 128 or more.
- Indices in [`length`, 128) are also excluded, as contract violations. There `set` is defined: it writes a dead slot. `get` and `remove` are defined only if the slot was written since the buffer was allocated; reading a never-written slot is undefined. When defined, `remove` with `1 <= length <= i` runs no loop iteration, returns the dead slot `moves[i]` and decrements `length`, so it silently drops the last live entry.
- `Moves.SetPromotionFields`: states the fields only for promotions in 0..15. A value of 16 or more sets bits from 20 up: capture and castle for 16..63, the unused bits 22-31 beyond that, and bits shifted past 31 are lost. `SetPromotion` itself computes that spill bit for bit.
- `Moves.SetPromotion`: shifting a negative or large C `int` left is undefined before C++20. The model uses the 32-bit shift of its bit pattern, which is what C++20 defines.
- The encoder lemmas assume in-range arguments. `EncodeMove` accepts any 32-bit values and combines them bit for bit, as the code does.
