/** Decoding inverts writing a register image, on every block validation accepts. */
module DecodeInverse {
  import opened Schema
  import opened Validate
  import opened Decode
  import Poller

  // ---------------------------------------------------------------- the inverse: writing a register image

  /** The raw values a register type can hold; for a float, its 32 bits. */
  predicate Holds(t: DataType, n: int) {
    match t
    case U16 => 0 <= n < 0x1_0000
    case I16 => -0x8000 <= n < 0x8000
    case U32 | F32 => 0 <= n < 0x1_0000_0000
    case I32 => -0x8000_0000 <= n < 0x8000_0000
  }

  function Meaning(t: DataType, n: int, floatOf: int -> real): real {
    if t.F32? then floatOf(n) else n as real
  }

  function WriteRaw(words: seq<u16>, p: PointConfig, order: WordOrder, n: int): (r: seq<u16>)
    requires p.End() <= |words| && Holds(p.dataType, n)
    ensures |r| == |words|
    ensures forall k :: 0 <= k < |words| && !(p.offset <= k < p.End()) ==> r[k] == words[k]
  {
    if p.dataType.WordCount() == 1 then words[p.offset := n % 0x1_0000]
    else
      var bits := n % 0x1_0000_0000;
      var (hi, lo) := (bits / 0x1_0000, bits % 0x1_0000);
      match order
      case BigEndian => words[p.offset := hi][p.offset + 1 := lo]
      case LittleEndian => words[p.offset := lo][p.offset + 1 := hi]
  }

  /** Writes `raws[i]` at the offset of point `i`, for every point of the block. */
  function WriteImage(block: BlockConfig, upTo: nat, raws: seq<int>, words: seq<u16>): (r: seq<u16>)
    requires upTo <= |block.points| == |raws| && Readable(block, words)
    requires forall i :: 0 <= i < |raws| ==> Holds(block.points[i].dataType, raws[i])
    ensures |r| == |words|
  {
    if upTo == 0 then words
    else
      WriteRaw(WriteImage(block, upTo - 1, raws, words), block.points[upTo - 1], block.wordOrder, raws[upTo - 1])
  }

  lemma WriteThenExtract(words: seq<u16>, p: PointConfig, order: WordOrder, n: int, floatOf: int -> real)
    requires p.End() <= |words| && Holds(p.dataType, n)
    ensures ExtractRaw(WriteRaw(words, p, order, n), p.offset, p.dataType, order, floatOf) == Meaning(p.dataType, n, floatOf)
  {
    var r := WriteRaw(words, p, order, n);
    if p.dataType.WordCount() == 2 {
      var bits := n % 0x1_0000_0000;
      assert CombineU32(r, p.offset, order) == bits;
      assert bits == if n < 0 then n + 0x1_0000_0000 else n;
    } else {
      assert r[p.offset] == if n < 0 then n + 0x1_0000 else n;
    }
  }

  lemma DecodeReadsOnlyItsRegisters(p: PointConfig, words: seq<u16>, words': seq<u16>, order: WordOrder, floatOf: int -> real)
    requires p.End() <= |words| == |words'|
    requires forall k :: p.offset <= k < p.End() ==> words[k] == words'[k]
    ensures DecodePoint(p, words, order, floatOf) == DecodePoint(p, words', order, floatOf)
  {
  }

  lemma {:induction false} ImageHoldsEveryPoint(block: BlockConfig, upTo: nat, raws: seq<int>, words: seq<u16>, floatOf: int -> real, i: nat)
    requires BlockOk(block) && |words| == block.count
    requires i < upTo <= |block.points| == |raws|
    requires forall k :: 0 <= k < |raws| ==> Holds(block.points[k].dataType, raws[k])
    ensures DecodePoint(block.points[i], WriteImage(block, upTo, raws, words), block.wordOrder, floatOf)
         == (block.points[i].name, Scaled(block.points[i], Meaning(block.points[i].dataType, raws[i], floatOf)))
  {
    var before := WriteImage(block, upTo - 1, raws, words);
    if i == upTo - 1 {
      WriteThenExtract(before, block.points[i], block.wordOrder, raws[i], floatOf);
    } else {
      ImageHoldsEveryPoint(block, upTo - 1, raws, words, floatOf, i);
      assert Apart(block.points[i], block.points[upTo - 1]);
      DecodeReadsOnlyItsRegisters(block.points[i], before, WriteImage(block, upTo, raws, words), block.wordOrder, floatOf);
    }
  }

  /** What a point shows for a raw value: the value times the scale, or its magnitude if the point is flagged absolute. */
  predicate ShowsRaw(p: PointConfig, raw: real, shown: real) {
    if p.absolute then shown >= 0.0 && (shown == raw * p.scale || shown == -(raw * p.scale)) else shown == raw * p.scale
  }

  lemma ScaledShows(p: PointConfig, raw: real)
    ensures ShowsRaw(p, raw, Scaled(p, raw))
  {
  }

  /**
   Round trip: over any background image, an accepted block decodes to exactly what was written,
   in point order: point `i` shows its raw value times its scale.
   */
  lemma DecodeInvertsImage(block: BlockConfig, raws: seq<int>, words: seq<u16>, floatOf: int -> real)
    requires BlockOk(block) && |words| == block.count && |raws| == |block.points|
    requires forall k :: 0 <= k < |raws| ==> Holds(block.points[k].dataType, raws[k])
    ensures DecodeBlock(block, WriteImage(block, |raws|, raws, words), floatOf)
         == seq(|raws|, i requires 0 <= i < |raws| =>
              (block.points[i].name, Scaled(block.points[i], Meaning(block.points[i].dataType, raws[i], floatOf))))
    ensures forall i :: 0 <= i < |raws| ==>
              var (name, shown) := DecodeBlock(block, WriteImage(block, |raws|, raws, words), floatOf)[i];
              name == block.points[i].name
              && ShowsRaw(block.points[i], Meaning(block.points[i].dataType, raws[i], floatOf), shown)
  {
    hide Meaning, Scaled, ShowsRaw, Holds;
    forall i | 0 <= i < |raws|
      ensures DecodePoint(block.points[i], WriteImage(block, |raws|, raws, words), block.wordOrder, floatOf)
           == (block.points[i].name, Scaled(block.points[i], Meaning(block.points[i].dataType, raws[i], floatOf)))
      ensures ShowsRaw(block.points[i], Meaning(block.points[i].dataType, raws[i], floatOf),
                       Scaled(block.points[i], Meaning(block.points[i].dataType, raws[i], floatOf)))
    {
      ImageHoldsEveryPoint(block, |raws|, raws, words, floatOf, i);
      ScaledShows(block.points[i], Meaning(block.points[i].dataType, raws[i], floatOf));
    }
  }

  /** The raw value of a type: `reg` is the register at the point's offset, `next` the one after it, for 32-bit types. */
  function RawOf(t: DataType, order: WordOrder, reg: int, next: int, floatOf: int -> real): real {
    var wide := if order.BigEndian? then reg * 65536 + next else next * 65536 + reg;
    match t
    case U16 => reg as real
    case I16 => (if reg < 32768 then reg else reg - 65536) as real
    case U32 => wide as real
    case I32 => (if wide < 2147483648 then wide else wide - 4294967296) as real
    case F32 => floatOf(wide)
  }

  /** What a register type reads, from the registers themselves; big-endian order puts the high-order one first. */
  lemma RawMeans(words: seq<u16>, p: PointConfig, order: WordOrder, floatOf: int -> real)
    requires p.End() <= |words|
    ensures p.End() == p.offset + (if p.dataType.U16? || p.dataType.I16? then 1 else 2)
    ensures ExtractRaw(words, p.offset, p.dataType, order, floatOf)
         == RawOf(p.dataType, order, words[p.offset], if p.End() == p.offset + 1 then 0 else words[p.offset + 1], floatOf)
  {
  }

  /** Changing one register changes the value of at most one point, and only of a point that covers it. */
  lemma RegisterReachesAtMostOnePoint(block: BlockConfig, words: seq<u16>, reg: nat, w: u16, floatOf: int -> real)
    requires BlockOk(block) && |words| == block.count && reg < |words|
    ensures var before, after := DecodeBlock(block, words, floatOf), DecodeBlock(block, words[reg := w], floatOf);
      && (forall i :: 0 <= i < |before| && before[i] != after[i] ==> block.points[i].offset <= reg < block.points[i].End())
      && (forall i, j :: 0 <= i < j < |before| ==> before[i] == after[i] || before[j] == after[j])
  {
    var before, after := DecodeBlock(block, words, floatOf), DecodeBlock(block, words[reg := w], floatOf);
    forall i | 0 <= i < |before| && before[i] != after[i]
      ensures block.points[i].offset <= reg < block.points[i].End()
    {
      if !(block.points[i].offset <= reg < block.points[i].End()) {
        DecodeReadsOnlyItsRegisters(block.points[i], words, words[reg := w], block.wordOrder, floatOf);
      }
    }
    forall i, j | 0 <= i < j < |before| ensures before[i] == after[i] || before[j] == after[j] {
      assert Apart(block.points[i], block.points[j]);
    }
  }

  /** On an accepted config, reads that return exactly the words asked for can be decoded. */
  lemma AcceptedConfigDecodes(devices: seq<DeviceConfig>, tick: seq<Poller.Polled>)
    requires DevicesOk(devices) && |tick| == |devices|
    requires forall d :: 0 <= d < |tick| ==> tick[d].device == devices[d] && |tick[d].results| == |devices[d].blocks|
    requires forall d, k :: 0 <= d < |tick| && 0 <= k < |tick[d].results| && tick[d].results[k].Words? ==>
               |tick[d].results[k].words| == devices[d].blocks[k].count
    ensures Poller.TickOk(tick)
  {
    forall p | p in tick ensures Poller.PolledOk(p) {
      var d :| 0 <= d < |tick| && tick[d] == p;
      forall k | 0 <= k < |p.results| && p.results[k].Words? ensures Readable(p.device.blocks[k], p.results[k].words) {
        assert BlockOk(devices[d].blocks[k]);
      }
    }
  }
}
