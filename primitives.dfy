/** The primitive table the testbench compares: per block partition an
    optional SATD and an optional SAD comparison, plus the two SA8D entries
    that exist only at 8x8 and 16x16. The table is filled by installers the
    testbench does not own; the testbench only reads it. */
module Primitives {

  datatype Option<+T> = None | Some(value: T)

  /** Number of block partitions, 4x4 up to 64x64. */
  const NUM_PARTITIONS: nat := 25

  /** A pixel comparison `pixelcmp(pix1 + offset, stride1, pix2, stride2)`:
      the first buffer, the offset into it, its stride, the second buffer
      (always read from its start) and its stride. */
  type PixelCmp = (seq<int>, int, int, seq<int>, int) -> int

  /** One address in a primitive table. */
  datatype Slot = Satd(part: nat) | Sad(part: nat) | Sa8d8x8 | Sa8d16x16

  /** The slots that exist in a table. */
  predicate InRange(s: Slot)
  {
    (s.Satd? || s.Sad?) ==> s.part < NUM_PARTITIONS
  }

  /** The position of a slot in the sweep: partitions in index order, SATD
      before SAD, and the two SA8D entries last. */
  function Rank(s: Slot): nat
  {
    match s
    case Satd(p) => 2 * p
    case Sad(p) => 2 * p + 1
    case Sa8d8x8 => 2 * NUM_PARTITIONS
    case Sa8d16x16 => 2 * NUM_PARTITIONS + 1
  }

  /** A per-partition array of `EncoderPrimitives`: one optional
      comparison for each of the NUM_PARTITIONS partitions. */
  type PartitionEntries = s: seq<Option<PixelCmp>> | |s| == NUM_PARTITIONS
    witness seq(NUM_PARTITIONS, _ => None)

  /** The comparison entries of `EncoderPrimitives`; a `None` is a null
      function pointer, i.e. a slot the variant does not implement. */
  datatype Table = Table(satd: PartitionEntries, sad: PartitionEntries,
                         sa8d8x8: Option<PixelCmp>, sa8d16x16: Option<PixelCmp>)
  {
    /** The entry at slot `s`; a partition index past the arrays names no
        entry. */
    function Entry(s: Slot): (r: Option<PixelCmp>)
      ensures r.Some? ==> InRange(s)
    {
      match s
      case Satd(p) => if p < NUM_PARTITIONS then satd[p] else None
      case Sad(p) => if p < NUM_PARTITIONS then sad[p] else None
      case Sa8d8x8 => sa8d8x8
      case Sa8d16x16 => sa8d16x16
    }

    /** A table whose every slot is implemented, as the reference (C)
        table is. */
    ghost predicate Full()
    {
      forall s: Slot :: InRange(s) ==> Entry(s).Some?
    }
  }

  /** A table after `memset(&table, 0, sizeof(table))`: nothing implemented. */
  function EmptyTable(): (t: Table)
    ensures forall s: Slot :: t.Entry(s).None?
  {
    Table(seq(NUM_PARTITIONS, _ => None), seq(NUM_PARTITIONS, _ => None), None, None)
  }
}
