/** The bytes of a file, and what a write makes of them. */
module Content {
  import opened Blocks
  import opened Ownership
  import opened BlockMap

  /** How many blocks `size` bytes take. */
  function BlocksFor(size: int): int {
    (size + BLOCK_SIZE - 1) / BLOCK_SIZE
  }

  /** The byte at position `p` of a file with bytes `c`, zero behind its end. */
  function ByteAt(c: seq<byte>, p: int): byte
    requires 0 <= p
  {
    if p < |c| then c[p] else 0
  }

  /** The buffer `b` is block `k` of the bytes `c`. */
  ghost predicate IsBlock(b: seq<byte>, c: seq<byte>, k: int)
    requires 0 <= k
  {
    |b| == BLOCK_SIZE && forall t :: 0 <= t < BLOCK_SIZE ==> b[t] == ByteAt(c, k * BLOCK_SIZE + t)
  }

  /** Block `k` of the file is a block of the device that holds block `k` of `c`. */
  ghost predicate BlockHolds(d: seq<Block>, f: FileMap, k: int, c: seq<byte>)
    requires 0 <= k < MAX_BLOCKS
  {
    0 <= DataAt(f, k) < |d| && IsBlock(BytesOf(d[DataAt(f, k)]), c, k)
  }

  /** The file holds exactly the bytes `c`: it has as many blocks as they need, and
      zeros after them in the last block. */
  ghost predicate HasContent(d: seq<Block>, rec: InodeRec, f: FileMap, c: seq<byte>) {
    && rec.size == |c| && rec.blocks == BlocksFor(|c|) <= MAX_BLOCKS
    && forall k :: 0 <= k < rec.blocks ==> BlockHolds(d, f, k, c)
  }

  /** What a write of `data` at `off` makes of the bytes `c`: zeros up to the start of
      the write if need be, and `data` over what was there. */
  function Overlay(c: seq<byte>, off: int, data: seq<byte>): (r: seq<byte>)
    requires 0 <= off
  {
    var p := if |c| < off then c + Zeros(off - |c|) else c;
    p[..off] + data + (if off + |data| <= |p| then p[off + |data|..] else [])
  }

  /** A write changes exactly the bytes in its range, and a gap reads as zeros. */
  lemma OverlayBytes(c: seq<byte>, off: int, data: seq<byte>, p: int)
    requires 0 <= off && 0 <= p
    ensures |Overlay(c, off, data)| == if |c| < off + |data| then off + |data| else |c|
    ensures ByteAt(Overlay(c, off, data), p) ==
      if off <= p < off + |data| then data[p - off] else ByteAt(c, p)
  {
  }

  /** `memcpy` of `src` into `buf` at `at`. */
  function Splice(buf: seq<byte>, at: int, src: seq<byte>): (r: seq<byte>)
    requires 0 <= at && at + |src| <= |buf|
    ensures |r| == |buf|
  {
    buf[..at] + src + buf[at + |src|..]
  }

  /** The range of block `k` that a write of `n` bytes at `off` covers. */
  function From(k: int, off: int): int {
    if off <= k * BLOCK_SIZE then 0 else off - k * BLOCK_SIZE
  }

  function To(k: int, off: int, n: int): int {
    if off + n < (k + 1) * BLOCK_SIZE then off + n - k * BLOCK_SIZE else BLOCK_SIZE
  }

  /** Splicing the bytes of the write that fall into block `k` over the old block
      gives block `k` of the new content. */
  lemma WrittenBlock(c: seq<byte>, off: int, data: seq<byte>, k: int, before: seq<byte>, at: int, src: seq<byte>)
    requires 0 <= off && data != [] && 0 <= k && IsBlock(before, c, k)
    requires k * BLOCK_SIZE < off + |data| && off < (k + 1) * BLOCK_SIZE
    requires at == From(k, off)
    requires src == data[k * BLOCK_SIZE + at - off..k * BLOCK_SIZE + To(k, off, |data|) - off]
    ensures IsBlock(Splice(before, at, src), Overlay(c, off, data), k)
  {
    hide Overlay;
    forall t | 0 <= t < BLOCK_SIZE
      ensures Splice(before, at, src)[t] == ByteAt(Overlay(c, off, data), k * BLOCK_SIZE + t)
    {
      OverlayBytes(c, off, data, k * BLOCK_SIZE + t);
    }
  }

  /** A block outside the range of the write keeps its bytes. */
  lemma UnwrittenBlock(c: seq<byte>, off: int, data: seq<byte>, k: int, b: seq<byte>)
    requires 0 <= off && data != [] && 0 <= k && IsBlock(b, c, k)
    requires (k + 1) * BLOCK_SIZE <= off || off + |data| <= k * BLOCK_SIZE
    ensures IsBlock(b, Overlay(c, off, data), k)
  {
    forall t | 0 <= t < BLOCK_SIZE ensures b[t] == ByteAt(Overlay(c, off, data), k * BLOCK_SIZE + t) {
      OverlayBytes(c, off, data, k * BLOCK_SIZE + t);
    }
  }

  /** A zeroed block is any block behind the end of the content. */
  lemma ZeroIsBlock(c: seq<byte>, k: int)
    requires 0 <= k && |c| <= k * BLOCK_SIZE
    ensures IsBlock(Zeros(BLOCK_SIZE), c, k)
  {
  }
}
