/** The on-disk redo log of kernel/log.c: a header block followed by LOGBLOCKS
    data blocks, and what a recovery makes of an arbitrary disk.

    A disk is a sequence of blocks and a block is its BSIZE/4 32-bit words; the
    log occupies blocks start .. start+LOGBLOCKS and every other block is a
    home block. */
module LogDisk {
  import opened Params

  const WORDS := BSIZE / 4

  type Block = seq<int>
  type Disk = seq<Block>

  predicate Sized(d: Disk) {
    forall b :: 0 <= b < |d| ==> |d[b]| == WORDS
  }

  predicate Fits(start: nat, d: Disk) {
    start + LOGBLOCKS < |d| && Sized(d)
  }

  /** A block that belongs to the file system rather than to the log. */
  predicate Home(start: nat, size: nat, b: int) {
    0 <= b < size && !(start <= b <= start + LOGBLOCKS)
  }

  ghost predicate SameHome(start: nat, d: Disk, e: Disk) {
    |d| == |e| && forall b :: Home(start, |d|, b) ==> d[b] == e[b]
  }

  // ---------------------------------------------------------------- header

  predicate HeadOk(b: Block) {
    |b| == WORDS && 0 <= b[0] <= LOGBLOCKS
  }

  /** What read_head copies out of the header block. */
  function DecodeHead(b: Block): (lh: seq<int>)
    requires HeadOk(b)
    ensures |lh| <= LOGBLOCKS
  {
    b[1..1 + b[0]]
  }

  /** What write_head stores: the words beyond the n entries keep their old contents. */
  function EncodeHead(was: Block, lh: seq<int>): (b: Block)
    requires |was| == WORDS && |lh| <= LOGBLOCKS
    ensures HeadOk(b) && DecodeHead(b) == lh
  {
    [|lh|] + lh + was[1 + |lh|..]
  }

  // ------------------------------------------------------ install and recovery

  predicate Installable(start: nat, d: Disk, lh: seq<int>) {
    && Fits(start, d)
    && |lh| <= LOGBLOCKS
    && forall i :: 0 <= i < |lh| ==> Home(start, |d|, lh[i])
  }

  /** The disk after the first k iterations of install_trans. */
  function Install(start: nat, d: Disk, lh: seq<int>, k: nat): (r: Disk)
    requires Installable(start, d, lh) && k <= |lh|
    ensures Fits(start, r) && |r| == |d|
    ensures forall b :: start <= b <= start + LOGBLOCKS ==> r[b] == d[b]
  {
    if k == 0 then d
    else
      var e := Install(start, d, lh, k - 1);
      e[lh[k - 1] := e[start + k]]
  }

  predicate GoodHead(start: nat, d: Disk) {
    Fits(start, d) && HeadOk(d[start]) && Installable(start, d, DecodeHead(d[start]))
  }

  /** The disk that a complete run of recover_from_log leaves. */
  function Recovered(start: nat, d: Disk): (r: Disk)
    requires GoodHead(start, d)
    ensures Fits(start, r) && |r| == |d| && HeadOk(r[start])
    ensures DecodeHead(r[start]) == []
  {
    var lh := DecodeHead(d[start]);
    var e := Install(start, d, lh, |lh|);
    e[start := EncodeHead(e[start], [])]
  }

  /** The last of the first k log entries that names block b, or -1. */
  function LastEntry(lh: seq<int>, k: nat, b: int): (i: int)
    requires k <= |lh|
    ensures -1 <= i < k
    ensures i >= 0 ==> lh[i] == b
    ensures forall j :: i < j < k ==> lh[j] != b
  {
    if k == 0 then -1
    else if lh[k - 1] == b then k - 1
    else LastEntry(lh, k - 1, b)
  }

  /** What recovery will find for home block b: its last logged copy, or the block itself. */
  function Latest(start: nat, d: Disk, lh: seq<int>, k: nat, b: int): Block
    requires Fits(start, d) && k <= |lh| <= LOGBLOCKS && Home(start, |d|, b)
  {
    var i := LastEntry(lh, k, b);
    if i < 0 then d[b] else d[start + 1 + i]
  }

  lemma {:induction false} InstallAt(start: nat, d: Disk, lh: seq<int>, k: nat, b: int)
    requires Installable(start, d, lh) && k <= |lh|
    requires Home(start, |d|, b)
    ensures Install(start, d, lh, k)[b] == Latest(start, d, lh, k, b)
  {
    if k > 0 && lh[k - 1] != b {
      InstallAt(start, d, lh, k - 1, b);
    }
  }

  /** Recovery leaves every home block as its last logged copy, and as it was when
      the log does not mention it. */
  lemma {:induction false} RecoveredAt(start: nat, d: Disk, b: int)
    requires GoodHead(start, d) && Home(start, |d|, b)
    ensures var lh := DecodeHead(d[start]); Recovered(start, d)[b] == Latest(start, d, lh, |lh|, b)
  {
    var lh := DecodeHead(d[start]);
    InstallAt(start, d, lh, |lh|, b);
  }

  /** The copies may be repeated: installing again over any partly installed disk
      gives the same home blocks. This is what makes an interrupted install or an
      interrupted recovery harmless. */
  lemma {:induction false} InstallIdempotent(start: nat, d: Disk, lh: seq<int>, k: nat)
    requires Installable(start, d, lh) && k <= |lh|
    ensures Installable(start, Install(start, d, lh, k), lh)
    ensures SameHome(start, Install(start, Install(start, d, lh, k), lh, |lh|), Install(start, d, lh, |lh|))
  {
    var e := Install(start, d, lh, k);
    forall b | Home(start, |d|, b)
      ensures Install(start, e, lh, |lh|)[b] == Install(start, d, lh, |lh|)[b]
    {
      InstallAt(start, e, lh, |lh|, b);
      InstallAt(start, d, lh, |lh|, b);
      InstallAt(start, d, lh, k, b);
    }
  }

  /** Recovery started over after any number of installed blocks, with the header
      still in place, ends in the same home blocks. */
  lemma {:induction false} RecoveryRestarts(start: nat, d: Disk, k: nat)
    requires GoodHead(start, d) && k <= |DecodeHead(d[start])|
    ensures GoodHead(start, Install(start, d, DecodeHead(d[start]), k))
    ensures SameHome(start, Recovered(start, Install(start, d, DecodeHead(d[start]), k)), Recovered(start, d))
  {
    InstallIdempotent(start, d, DecodeHead(d[start]), k);
  }

  /** Recovery of a recovered disk changes nothing at home. */
  lemma {:induction false} RecoveredTwice(start: nat, d: Disk)
    requires GoodHead(start, d)
    ensures GoodHead(start, Recovered(start, d))
    ensures SameHome(start, Recovered(start, Recovered(start, d)), Recovered(start, d))
  {
    assert Install(start, Recovered(start, d), [], 0) == Recovered(start, d);
  }

  /** Recovery looks at the header list only, not at the rest of the header block. */
  lemma {:induction false} RecoveryReadsTheList(start: nat, d: Disk, e: Disk)
    requires GoodHead(start, d) && Fits(start, e) && |d| == |e| && HeadOk(e[start])
    requires DecodeHead(d[start]) == DecodeHead(e[start])
    requires forall b :: 0 <= b < |d| && b != start ==> d[b] == e[b]
    ensures GoodHead(start, e) && SameHome(start, Recovered(start, d), Recovered(start, e))
  {
    forall b | Home(start, |d|, b) ensures Recovered(start, d)[b] == Recovered(start, e)[b] {
      RecoveredAt(start, d, b);
      RecoveredAt(start, e, b);
    }
  }
}
