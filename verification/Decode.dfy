/**
 Register decoding (src/modbus/decode.rs). A block's register image is a sequence of 16-bit
 words. `floatOf` stands for reading 32 bits as an IEEE 754 single: nothing here depends on
 which function of the bits it is.
 */
module Decode {
  import opened Backoffs
  import opened Schema

  /** The two registers of a 32-bit value, the high-order one first. */
  function HighLow(words: seq<u16>, idx: nat, order: WordOrder): (u16, u16)
    requires idx + 1 < |words|
  {
    if order.BigEndian? then (words[idx], words[idx + 1]) else (words[idx + 1], words[idx])
  }

  /** `(hi << 16) | lo`, as a sum. */
  function CombineU32(words: seq<u16>, idx: nat, order: WordOrder): int
    requires idx + 1 < |words|
  {
    var (hi, lo) := HighLow(words, idx, order);
    hi * 0x1_0000 + lo
  }

  // ---------------------------------------------------------------- the bit operations behind the sum

  /** Bitwise or of the lowest `width` bits. */
  function BitOr(a: nat, b: nat, width: nat): nat {
    if width == 0 then 0
    else 2 * BitOr(a / 2, b / 2, width - 1) + if a % 2 == 1 || b % 2 == 1 then 1 else 0
  }

  /** Left shift in a word of 32 bits: bits that leave it are lost. */
  function ShiftLeft(a: nat, k: nat): nat {
    Doubled(a, k) % 0x1_0000_0000
  }

  lemma {:induction false} OrOfShifted(hi: nat, lo: nat, k: nat, width: nat)
    requires k <= width && hi < Doubled(1, width - k) && lo < Doubled(1, k)
    ensures BitOr(Doubled(hi, k), lo, width) == Doubled(hi, k) + lo
    decreases width
  {
    if k > 0 {
      OrOfShifted(hi, lo / 2, k - 1, width - 1);
    } else if width > 0 {
      OrOfShifted(hi / 2, 0, 0, width - 1);
    }
  }

  lemma FourMore(a: nat, k: nat)
    ensures Doubled(a, k + 4) == 16 * Doubled(a, k)
  {
    assert Doubled(a, k + 1) == 2 * Doubled(a, k);
    assert Doubled(a, k + 2) == 4 * Doubled(a, k);
    assert Doubled(a, k + 3) == 8 * Doubled(a, k);
  }

  lemma ShiftBy16(a: nat)
    ensures Doubled(a, 16) == a * 0x1_0000
  {
    FourMore(a, 0);
    FourMore(a, 4);
    FourMore(a, 8);
    FourMore(a, 12);
  }

  lemma NoBitLost(hi: u16)
    ensures hi * 0x1_0000 % 0x1_0000_0000 == hi * 0x1_0000
  {
  }

  /** The shift and bitwise or of the code give the sum: no bit is lost, and none is in both halves. */
  lemma ShiftOrIsSum(words: seq<u16>, idx: nat, order: WordOrder)
    requires idx + 1 < |words|
    ensures var (hi, lo) := HighLow(words, idx, order);
      BitOr(ShiftLeft(hi, 16), lo, 32) == CombineU32(words, idx, order)
  {
    hide Doubled, BitOr, HighLow;
    var (hi, lo) := HighLow(words, idx, order);
    ShiftBy16(1);
    ShiftBy16(hi);
    NoBitLost(hi);
    OrOfShifted(hi, lo, 16, 32);
  }

  // ---------------------------------------------------------------- decoding

  /** Two's-complement reading of an unsigned value below `modulus`: `as i16`, `as i32`. */
  function Signed(x: int, modulus: int): int {
    if 2 * x >= modulus then x - modulus else x
  }

  function ExtractRaw(words: seq<u16>, offset: nat, dataType: DataType, order: WordOrder, floatOf: int -> real): real
    requires offset + dataType.WordCount() <= |words|
  {
    match dataType
    case U16 => words[offset] as real
    case I16 => Signed(words[offset], 0x1_0000) as real
    case U32 => CombineU32(words, offset, order) as real
    case I32 => Signed(CombineU32(words, offset, order), 0x1_0000_0000) as real
    case F32 => floatOf(CombineU32(words, offset, order))
  }

  function Scaled(p: PointConfig, raw: real): real {
    var value := raw * p.scale;
    if p.absolute && value < 0.0 then -value else value
  }

  predicate Readable(block: BlockConfig, words: seq<u16>) {
    forall p :: p in block.points ==> p.End() <= |words|
  }

  function DecodePoint(p: PointConfig, words: seq<u16>, order: WordOrder, floatOf: int -> real): (string, real)
    requires p.End() <= |words|
  {
    (p.name, Scaled(p, ExtractRaw(words, p.offset, p.dataType, order, floatOf)))
  }

  function DecodeBlock(block: BlockConfig, words: seq<u16>, floatOf: int -> real): (r: seq<(string, real)>)
    requires Readable(block, words)
    ensures |r| == |block.points|
  {
    seq(|block.points|, i requires 0 <= i < |block.points| =>
      DecodePoint(block.points[i], words, block.wordOrder, floatOf))
  }
}
