/** alignedmmapheap.h: an aligned region cut out of a larger one that is mapped for it. */
module AlignedMmap {
  import opened IntrusiveLists
  import opened ReapBases
  import opened ReapLayouts
  import opened Partitions

  /** `((start - 1) / alignment + 1) * alignment`. */
  function AlignedStart(start: int, alignment: nat): int
    requires 0 < alignment
  {
    ((start - 1) / alignment + 1) * alignment
  }

  /** The first multiple of the alignment that is not below `start`. */
  lemma AlignedStartIsLeast(start: int, alignment: nat, other: int)
    requires 0 < start && 0 < alignment
    ensures var ptr := AlignedStart(start, alignment);
      && ptr % alignment == 0 && start <= ptr < start + alignment
      && (start <= other && other % alignment == 0 ==> ptr <= other)
  {
    var k := (start - 1) / alignment;
    Quotient(start - 1, alignment);
    MulDistributes(alignment, k, 1);
    DivUnique(AlignedStart(start, alignment), alignment, k + 1, 0);
    if start <= other && other % alignment == 0 {
      var j := other / alignment;
      Quotient(other, alignment);
      if j <= k {
        Monotone(alignment, j, k);
      } else {
        Monotone(alignment, k + 1, j);
      }
    }
  }

  lemma Monotone(a: nat, j: int, k: int)
    requires j <= k
    ensures a * j <= a * k
  {
    MulDistributes(a, j, k - j);
    assert 0 <= a * (k - j);
  }

  /** A piece of address space. */
  datatype Piece = Piece(start: int, size: int)

  predicate Asked(size: nat, alignment: nat) {
    size != 0 && size % PAGE_SIZE == 0 && alignment != 0 && alignment % PAGE_SIZE == 0
  }

  class AlignedMmapHeap {
    // _ptr_size_map
    var sizes: map<int, nat>

    constructor ()
      ensures sizes == map[]
    {
      sizes := map[];
    }

    /**
     * `start` is where `size + alignment` bytes were mapped. The pieces before and behind the result are unmapped: with
     * the result they make up exactly what was mapped.
     */
    method Malloc(size: nat, alignment: nat, start: int) returns (ptr: int, before: Piece, behind: Piece)
      requires Asked(size, alignment) ==>
        0 < start && start % PAGE_SIZE == 0 && start + size + alignment <= ADDRESS_SPACE
      modifies this
      ensures !Asked(size, alignment) ==>
        ptr == NULL && sizes == old(sizes) && before == behind == Piece(0, 0)
      ensures Asked(size, alignment) ==>
        && start <= ptr && ptr % alignment == 0 && ptr % PAGE_SIZE == 0 && ptr < start + alignment
        && before == Piece(start, ptr - start)
        && behind.start == ptr + size && behind.size > 0
        && behind.start + behind.size == start + (size + alignment)
        && sizes == old(sizes)[ptr := size]
    {
      ptr, before, behind := NULL, Piece(0, 0), Piece(0, 0);
      if !Asked(size, alignment) {
        return;
      }
      AlignedStartIsLeast(start, alignment, start);
      hide AlignedStart;
      ptr := AlignedStart(start, alignment);
      PageAligned(ptr, alignment);
      // nothing is unmapped if this piece is empty
      before := Piece(start, ptr - start);
      behind := Piece(ptr + size, start + alignment - ptr);
      sizes := sizes[ptr := size];
    }
  }

  /** What is kept for a partition, or for a huge object, is a region as the partition heap needs it. */
  lemma GivesRegion(ptr: int, size: nat)
    requires 0 < ptr && ptr % PAGE_SIZE == 0 && ptr + size <= ADDRESS_SPACE && PARTITION_SIZE <= size
    ensures 0 <= PartitionOf(ptr) < NUM_PARTITIONS && Region(ptr, size, PartitionOf(ptr))
  {}
}
