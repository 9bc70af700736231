/** Bits and words inside a disk block of the file system: the bitmap bytes of balloc and
    bfree, and the 32-bit block numbers of an indirect block (kernel/fs.c, kernel/fs.h).
    A block is its BSIZE bytes; those of bitmap blocks are machine bytes, the others plain
    numbers. */
module FsBlocks {
  import opened Params

  const BPB := 8 * BSIZE          // bitmap bits per block
  const NINDIRECT := BSIZE / 4    // block numbers per indirect block

  type Block = seq<int>
  type MapBlock = seq<bv8>

  predicate Sized(blocks: seq<Block>) {
    forall b :: 0 <= b < |blocks| ==> |blocks[b]| == BSIZE
  }

  /** What bzero leaves. */
  function Zeros(): (r: Block)
    ensures |r| == BSIZE
  {
    seq(BSIZE, _ => 0)
  }

  // ------------------------------------------------------------------- bits

  /** 1 << k for a bit position in a byte. */
  function Mask(k: nat): bv8
    requires k < 8
  {
    if k == 0 then 1 else if k == 1 then 2 else if k == 2 then 4 else if k == 3 then 8
    else if k == 4 then 16 else if k == 5 then 32 else if k == 6 then 64 else 128
  }

  /** byte & (1 << k), byte | (1 << k) and byte & ~(1 << k). */
  predicate Has(byte: bv8, k: nat)
    requires k < 8
  {
    byte & Mask(k) != 0
  }

  function With(byte: bv8, k: nat): bv8
    requires k < 8
  {
    byte | Mask(k)
  }

  function Without(byte: bv8, k: nat): bv8
    requires k < 8
  {
    byte & !Mask(k)
  }

  lemma MaskFacts(byte: bv8, k: nat, j: nat)
    requires k < 8 && j < 8
    ensures Has(With(byte, k), j) == (j == k || Has(byte, j))
    ensures Has(Without(byte, k), j) == (j != k && Has(byte, j))
  {
    if k == 0 {} else if k == 1 {} else if k == 2 {} else if k == 3 {}
    else if k == 4 {} else if k == 5 {} else if k == 6 {} else {}
    if j == 0 {} else if j == 1 {} else if j == 2 {} else if j == 3 {}
    else if j == 4 {} else if j == 5 {} else if j == 6 {} else {}
  }

  /** Bit i of a bitmap block. */
  predicate BitAt(blk: MapBlock, i: nat)
    requires |blk| == BSIZE && i < BPB
  {
    Has(blk[i / 8], i % 8)
  }

  function SetBit(blk: MapBlock, i: nat): (r: MapBlock)
    requires |blk| == BSIZE && i < BPB
    ensures |r| == BSIZE
  {
    blk[i / 8 := With(blk[i / 8], i % 8)]
  }

  function ClearBit(blk: MapBlock, i: nat): (r: MapBlock)
    requires |blk| == BSIZE && i < BPB
    ensures |r| == BSIZE
  {
    blk[i / 8 := Without(blk[i / 8], i % 8)]
  }

  /** Setting or clearing a bit changes that bit and no other. */
  lemma BitChanges(blk: MapBlock, i: nat, j: nat)
    requires |blk| == BSIZE && i < BPB && j < BPB
    ensures BitAt(SetBit(blk, i), j) == (j == i || BitAt(blk, j))
    ensures BitAt(ClearBit(blk, i), j) == (j != i && BitAt(blk, j))
  {
    hide Has, With, Without;
    MaskFacts(blk[i / 8], i % 8, j % 8);
  }

  // ------------------------------------------------------------------ words

  /** Little-endian word j of an indirect block. */
  function WordAt(blk: Block, j: nat): int
    requires |blk| == BSIZE && j < NINDIRECT
  {
    blk[4 * j] + 0x100 * blk[4 * j + 1] + 0x10000 * blk[4 * j + 2] + 0x1000000 * blk[4 * j + 3]
  }

  function PutWord(blk: Block, j: nat, w: int): (r: Block)
    requires |blk| == BSIZE && j < NINDIRECT
    ensures |r| == BSIZE
  {
    blk[4 * j := w % 0x100][4 * j + 1 := (w / 0x100) % 0x100]
       [4 * j + 2 := (w / 0x10000) % 0x100][4 * j + 3 := (w / 0x1000000) % 0x100]
  }

  lemma BytesOfWord(w: int)
    requires 0 <= w < 0x1_0000_0000
    ensures w % 0x100 + 0x100 * ((w / 0x100) % 0x100) + 0x10000 * ((w / 0x10000) % 0x100)
            + 0x1000000 * ((w / 0x1000000) % 0x100) == w
  {
  }

  lemma PutWordAt(blk: Block, j: nat, w: int, k: nat)
    requires |blk| == BSIZE && j < NINDIRECT && k < NINDIRECT && 0 <= w < 0x1_0000_0000
    ensures WordAt(PutWord(blk, j, w), k) == if k == j then w else WordAt(blk, k)
  {
    BytesOfWord(w);
  }

  lemma ZeroWord(j: nat)
    requires j < NINDIRECT
    ensures WordAt(Zeros(), j) == 0
  {
  }
}
