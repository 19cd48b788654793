/** Whole writes: the blocks a file already has, then the blocks it grows by. */
module Writes {
  import opened Blocks
  import opened Ownership
  import opened BlockMap
  import opened Disk
  import opened Lookup
  import opened Append
  import opened Removal
  import opened Inodes
  import opened Content
  import opened Files

  /** How many free blocks it takes to grow a map from `n` to `m` blocks. */
  function Cost(n: int, m: int): int {
    m - n + IndexBlocks(m) - IndexBlocks(n)
  }

  /** Whether a write of `len` bytes at `off` to a file of `n` blocks has room. */
  predicate Fits(n: int, off: int, len: int, free: int) {
    var m := BlocksFor(off + len);
    m <= n || (m <= MAX_BLOCKS && Cost(n, m) <= free)
  }

  lemma CostStep(n0: int, n: int, free0: int, free: int)
    requires 0 <= n0 <= n && free == free0 - Cost(n0, n)
    ensures free - 1 - Growth(n) == free0 - Cost(n0, n + 1)
  {
    hide IndexBlocks;
  }

  /** Once one block does not fit, the write does not. */
  lemma DoesNotFit(n0: int, n: int, off: int, len: int, free0: int, free: int)
    requires 0 <= n0 <= n < BlocksFor(off + len) && free == free0 - Cost(n0, n)
    requires n >= MAX_BLOCKS || free < 1 + Growth(n)
    ensures !Fits(n0, off, len, free0)
  {
    hide IndexBlocks;
    IndexMonotone(n + 1, BlocksFor(off + len));
  }

  lemma BeforeEnd(n: int, off: int, len: int)
    requires 0 <= off && 0 < len && 0 <= n
    ensures 0 <= Before(n, off, len) <= len
    ensures Before(n, off, len) == len <==> BlocksFor(off + len) <= n
    ensures BlocksFor(off + len) == (off + len - 1) / BLOCK_SIZE + 1
  {
  }

  /** A gap block: its zeros are already there. */
  lemma GapPart(k: int, off: int, len: int)
    requires 0 <= off && 0 < len && 0 <= k < off / BLOCK_SIZE
    ensures (k + 1) * BLOCK_SIZE <= off && Before(k, off, len) == 0 && Before(k + 1, off, len) == 0
  {
  }

  /** Fills the block just appended, block `node.blocks - 1` and the `i`-th new one. */
  method FillNewBlock(disk: Disk, x: int, data: seq<byte>, off: int, i: int, blocks: int, written: int,
                      ghost rec: InodeRec, ghost ino: int, ghost d0: seq<Block>, ghost w0: World, ghost c: seq<byte>)
    returns (ok: bool, written': int)
    requires data != [] && 0 <= off && 0 <= blocks && 1 <= i && rec.blocks == blocks + i <= MAX_BLOCKS
    requires |c| <= (rec.blocks - 1) * BLOCK_SIZE
    requires Writing(disk.D(), disk.inodeBlocks + 1, disk.freelistHead, disk.w, rec, ino, rec.blocks - 1,
                     d0, w0, c, Overlay(c, off, data))
    requires rec.blocks - 1 <= (off + |data| - 1) / BLOCK_SIZE && written == Before(rec.blocks - 1, off, |data|)
    requires x == DataAt(disk.w.files[ino], rec.blocks - 1)
    modifies disk.store
    ensures ok && written' == Before(rec.blocks, off, |data|)
    ensures Writing(disk.D(), disk.inodeBlocks + 1, disk.freelistHead, disk.w, rec, ino, rec.blocks,
                    d0, w0, c, Overlay(c, off, data))
  {
    hide Writing, IsBlock, DataAt, Overlay, BlockHolds, WorldOk, FileOk;
    var n := |data|;
    var start, from := off / BLOCK_SIZE, off % BLOCK_SIZE;
    var end, to := (off + n - 1) / BLOCK_SIZE, (off + n - 1) % BLOCK_SIZE;
    var added, starting := end - blocks + 1, start - blocks + 1;
    ghost var k := rec.blocks - 1;
    if i >= starting {
      ZeroIsBlock(c, k);
      WrittenPart(c, off, data, k, Zeros(BLOCK_SIZE));
    }
    var buf := Zeros(BLOCK_SIZE);
    written' := written;
    if starting >= 1 && i == starting {
      var count := if from + n > BLOCK_SIZE then BLOCK_SIZE - from else n;
      buf := Splice(buf, from, data[..count]);
      written' := written + count;
    } else if i == added {
      buf := Splice(buf, 0, data[written..written + to + 1]);
      written' := written + to + 1;
    } else if i >= starting {
      buf := data[written..written + BLOCK_SIZE];
      written' := written + BLOCK_SIZE;
    }
    if i >= starting {
      ok := WriteFileBlock(disk, x, buf, rec, ino, k, d0, w0, c, Overlay(c, off, data));
    } else {
      GapPart(k, off, n);
      WritingSkip(disk.D(), disk.inodeBlocks + 1, disk.freelistHead, disk.w, rec, ino, k, k + 1, d0, w0, c, off, data);
      ok := true;
    }
  }

  /** Second loop: appends the blocks that the write needs beyond those of the file.
      It gets through exactly when there is room. */
  method WriteNew(disk: Disk, node: Inode, data: seq<byte>, off: int, done: int, ghost ino: int,
                  ghost d0: seq<Block>, ghost w0: World, ghost c: seq<byte>)
    returns (written: int)
    requires data != [] && 0 <= off && 0 <= node.blocks <= MAX_BLOCKS && |c| <= node.blocks * BLOCK_SIZE
    requires Writing(disk.D(), disk.inodeBlocks + 1, disk.freelistHead, disk.w, node.Rec(), ino, node.blocks,
                     d0, w0, c, Overlay(c, off, data))
    requires done == Before(node.blocks, off, |data|)
    modifies disk`freelistHead, disk`w, disk.store, node
    ensures disk.Sound() && OthersKept(d0, w0, disk.D(), disk.w, ino) && SameAttributes(old(node.Rec()), node.Rec())
    ensures 0 <= written <= |data|
    ensures written == |data| <==> Fits(old(node.blocks), off, |data|, old(NumFree(disk.w.owner)))
    ensures written < |data| ==>
      && old(node.blocks) <= node.blocks < BlocksFor(off + |data|) && written == Before(node.blocks, off, |data|)
      && Leftover(disk.D(), disk.inodeBlocks + 1, disk.freelistHead, disk.w, node.Rec(), ino, Overlay(c, off, data))
    ensures written == |data| ==>
      && node.blocks == (if BlocksFor(off + |data|) <= old(node.blocks) then old(node.blocks) else BlocksFor(off + |data|))
      && NumFree(disk.w.owner) == old(NumFree(disk.w.owner)) - Cost(old(node.blocks), node.blocks)
      && Writing(disk.D(), disk.inodeBlocks + 1, disk.freelistHead, disk.w, node.Rec(), ino, node.blocks,
                 d0, w0, c, Overlay(c, off, data))
  {
    hide Writing, WorldOk, NumFree, OthersKept, Overlay, DataAt, IndexBlocks, Growth, Cost, BlocksFor, Leftover;
    ghost var c' := Overlay(c, off, data);
    var blocks := node.blocks;
    var added := (off + |data| - 1) / BLOCK_SIZE - blocks + 1;
    written := done;
    CostNone(blocks);
    BeforeEnd(blocks, off, |data|);
    var i := 1;
    while i <= added
      invariant 1 <= i && (i <= added + 1 || i == 1)
      invariant node.blocks == blocks + i - 1 <= MAX_BLOCKS && written == Before(node.blocks, off, |data|)
      invariant Writing(disk.D(), disk.inodeBlocks + 1, disk.freelistHead, disk.w, node.Rec(), ino, node.blocks, d0, w0, c, c')
      invariant SameAttributes(old(node.Rec()), node.Rec())
      invariant NumFree(disk.w.owner) == old(NumFree(disk.w.owner)) - Cost(blocks, node.blocks)
    {
      BeforeEnd(node.blocks, off, |data|);
      ghost var n, free := node.blocks, NumFree(disk.w.owner);
      var ok, x := AppendBlock(disk, node, ino, d0, w0, c, c');
      if !ok {
        DoesNotFit(blocks, n, off, |data|, old(NumFree(disk.w.owner)), free);
        return;
      }
      CostStep(blocks, n, old(NumFree(disk.w.owner)), free);
      WritingFacts(disk.D(), disk.inodeBlocks + 1, disk.freelistHead, disk.w, node.Rec(), ino, n, d0, w0, c, c');
      ok, written := FillNewBlock(disk, x, data, off, i, blocks, written, node.Rec(), ino, d0, w0, c);
      if !ok {
        return;
      }
      i := i + 1;
    }
    BeforeEnd(blocks + i - 1, off, |data|);
    WritingOthers(disk.D(), disk.inodeBlocks + 1, disk.freelistHead, disk.w, node.Rec(), ino, node.blocks, d0, w0, c, c');
    EnoughRoom(blocks, node.blocks, off, |data|, old(NumFree(disk.w.owner)), NumFree(disk.w.owner));
  }

  lemma CostNone(n: int)
    ensures Cost(n, n) == 0
  {
    hide IndexBlocks;
  }

  lemma EnoughRoom(n0: int, n: int, off: int, len: int, free0: int, free: nat)
    requires 0 <= n0 <= n <= MAX_BLOCKS && free == free0 - Cost(n0, n)
    requires BlocksFor(off + len) <= n0 || BlocksFor(off + len) == n
    ensures Fits(n0, off, len, free0)
  {
    hide IndexBlocks;
  }

  /** The whole new content is in place. */
  lemma WriteDone(d: seq<Block>, lo: int, head: int, w: World, rec: InodeRec, ino: int,
                  d0: seq<Block>, w0: World, c: seq<byte>, off: int, data: seq<byte>)
    requires 0 <= off && data != []
    requires Writing(d, lo, head, w, rec, ino, rec.blocks, d0, w0, c, Overlay(c, off, data))
    requires rec.blocks ==
      if BlocksFor(off + |data|) <= BlocksFor(|c|) then BlocksFor(|c|) else BlocksFor(off + |data|)
    requires rec.size == if |c| < off + |data| then off + |data| else |c|
    ensures HasContent(d, rec, w.files[ino], Overlay(c, off, data))
  {
    hide FileOk, WorldOk, IsBlock, Overlay, OthersKept, BlockHolds;
    OverlayBytes(c, off, data, 0);
    WritingFacts(d, lo, head, w, rec, ino, rec.blocks, d0, w0, c, Overlay(c, off, data));
  }

  /** After inode `ino` has changed, the other inodes and the new record make a
      consistent file system. */
  lemma UpdateOk(d0: seq<Block>, lo: int, head0: int, w0: World, inodes: seq<InodeRec>,
                 d: seq<Block>, head: int, w: World, rec: InodeRec, ino: int)
    requires FsOk(d0, lo, head0, w0, inodes) && 0 <= ino < |inodes|
    requires InodeOk(d, lo, head, w, rec, ino) && OthersKept(d0, w0, d, w, ino)
    ensures FsOk(d, lo, head, w, inodes[ino := rec])
  {
    hide FileOk, WorldOk, HasContent;
    forall i | 0 <= i < |inodes| && i != ino ensures FileOk(d, inodes[i], w.files[i]) {
      OtherFileKept(d0, lo, head0, w0, d, w, ino, i, inodes[i], []);
    }
  }

  lemma Resized(d: seq<Block>, lo: int, head: int, w: World, rec: InodeRec, ino: int, i: int,
                d0: seq<Block>, w0: World, c: seq<byte>, c': seq<byte>, size: int)
    requires Writing(d, lo, head, w, rec, ino, i, d0, w0, c, c')
    ensures Writing(d, lo, head, w, rec.(size := size), ino, i, d0, w0, c, c')
  {
    hide BlockHolds, WorldOk, OthersKept, Shaped, TreesOk;
  }

  /** A write that stops early leaves what a write of the bytes that it got to would leave,
      as far as the file has blocks. */
  lemma ShortBlocks(d: seq<Block>, lo: int, head: int, w: World, rec: InodeRec, ino: int,
                    c: seq<byte>, off: int, data: seq<byte>, r: int, size: int)
    requires 0 <= off && Leftover(d, lo, head, w, rec, ino, Overlay(c, off, data))
    requires data != [] && r == Before(rec.blocks, off, |data|)
    ensures 0 <= r <= |data|
    ensures Leftover(d, lo, head, w, rec.(size := size), ino, Overlay(c, off, data[..r]))
  {
    hide WorldOk, Rooted, TreesOk, Overlay, IsBlock;
    BeforeEnd(rec.blocks, off, |data|);
    RootedSize(rec, w.files[ino], size);
    forall k | 0 <= k < rec.blocks ensures BlockHolds(d, w.files[ino], k, Overlay(c, off, data[..r])) {
      assert BlockHolds(d, w.files[ino], k, Overlay(c, off, data));
      ShortBlock(BytesOf(d[DataAt(w.files[ino], k)]), c, off, data, rec.blocks, k);
    }
  }

  lemma RootedSize(rec: InodeRec, f: FileMap, size: int)
    requires Rooted(rec, f)
    ensures Rooted(rec.(size := size), f)
  {
  }

  lemma ShortBlock(b: seq<byte>, c: seq<byte>, off: int, data: seq<byte>, blocks: int, k: int)
    requires 0 <= off && data != [] && 0 <= k < blocks && IsBlock(b, Overlay(c, off, data), k)
    ensures 0 <= Before(blocks, off, |data|) <= |data|
    ensures IsBlock(b, Overlay(c, off, data[..Before(blocks, off, |data|)]), k)
  {
    hide Overlay;
    var r := Before(blocks, off, |data|);
    forall t | 0 <= t < BLOCK_SIZE
      ensures b[t] == ByteAt(Overlay(c, off, data[..r]), k * BLOCK_SIZE + t)
    {
      OverlayBytes(c, off, data, k * BLOCK_SIZE + t);
      OverlayBytes(c, off, data[..r], k * BLOCK_SIZE + t);
    }
  }

  /** After a short write the file has the blocks that its size needs exactly if a byte was
      written, or the write was not to start behind the last block. */
  lemma ShortShape(size0: int, off: int, len: int, blocks: int)
    requires 0 <= size0 && 0 <= off && 0 < len && BlocksFor(size0) <= blocks < BlocksFor(off + len)
    ensures
      var r := Before(blocks, off, len);
      var size := if size0 < off + r then off + r else size0;
      && blocks <= BlocksFor(size)
      && (blocks == BlocksFor(size) <==> 0 < r || off <= blocks * BLOCK_SIZE)
  {
  }

  /** The state after writing `r` of the bytes of `data` at `off` to inode `inum`. */
  ghost predicate Written(d0: seq<Block>, w0: World, inodes0: seq<InodeRec>,
                          d: seq<Block>, lo: int, head: int, w: World, inodes: seq<InodeRec>,
                          inum: int, data: seq<byte>, off: int, c: seq<byte>, r: int)
    requires 0 <= inum < |inodes0| == |inodes| && 0 <= off
  {
    var rec0, rec := inodes0[inum], inodes[inum];
    && WorldOk(d, lo, head, w) && OthersKept(d0, w0, d, w, inum)
    && inodes == inodes0[inum := rec] && SameAttributes(rec0.(size := rec.size), rec)
    && 0 <= r <= |data| && rec.size == (if rec0.size < off + r then off + r else rec0.size)
    && (r == |data| <==> Fits(rec0.blocks, off, |data|, NumFree(w0.owner)))
    && (r == |data| ==>
          && FsOk(d, lo, head, w, inodes) && HasContent(d, rec, w.files[inum], Overlay(c, off, data))
          && NumFree(w.owner) == NumFree(w0.owner) - Cost(rec0.blocks, rec.blocks))
    && (r < |data| ==>
          && Leftover(d, lo, head, w, rec, inum, Overlay(c, off, data[..r])) && rec.blocks <= BlocksFor(rec.size)
          && (rec.blocks == BlocksFor(rec.size) <==> 0 < r || off <= rec.blocks * BLOCK_SIZE))
  }

  /** The state after a write that ran out of blocks: some first bytes of `data` are written. */
  ghost predicate WrittenPartly(d0: seq<Block>, w0: World, inodes0: seq<InodeRec>,
                                d: seq<Block>, lo: int, head: int, w: World, inodes: seq<InodeRec>,
                                inum: int, data: seq<byte>, off: int, c: seq<byte>) {
    && 0 <= inum < |inodes0| == |inodes| && 0 <= off
    && exists r :: r < |data| && Written(d0, w0, inodes0, d, lo, head, w, inodes, inum, data, off, c, r)
  }

  /** Writes `data` at `off`.  Unless the disk fills up, the content becomes the old
      one, padded with zeros up to `off` and overlaid with `data`. */
  method Write(disk: Disk, inum: int, data: seq<byte>, off: int, ghost c: seq<byte>) returns (r: int)
    requires TableOk(disk) && 0 <= inum < |disk.inodes|
    requires FsOk(disk.D(), disk.inodeBlocks + 1, disk.freelistHead, disk.w, disk.inodes)
    requires HasContent(disk.D(), disk.inodes[inum], disk.w.files[inum], c)
    modifies disk`freelistHead, disk`w, disk`inodes, disk.store
    ensures TableOk(disk) && |disk.inodes| == |old(disk.inodes)|
    ensures data == [] ==> r == 0
    ensures data != [] && off < 0 ==> r == -EINVAL
    ensures data == [] || off < 0 ==>
      disk.D() == old(disk.D()) && disk.w == old(disk.w) && disk.inodes == old(disk.inodes)
      && disk.freelistHead == old(disk.freelistHead)
    ensures data != [] && 0 <= off ==>
      Written(old(disk.D()), old(disk.w), old(disk.inodes),
              disk.D(), disk.inodeBlocks + 1, disk.freelistHead, disk.w, disk.inodes, inum, data, off, c, r)
  {
    hide Writing, WorldOk, NumFree, OthersKept, Overlay, FileOk, FsOk, Cost, Fits, BlockHolds, BlocksFor, Leftover;
    if data == [] {
      return 0;
    }
    if off < 0 {
      return -EINVAL;
    }
    ghost var d0, head0, w0, inodes0, lo := disk.D(), disk.freelistHead, disk.w, disk.inodes, disk.inodeBlocks + 1;
    ghost var c' := Overlay(c, off, data);
    var node := GetInode(disk, inum);
    FsInode(d0, lo, head0, w0, inodes0, inum);
    WritingStart(d0, lo, head0, w0, node.Rec(), inum, c, off, data);
    WritingFacts(d0, lo, head0, w0, node.Rec(), inum, off / BLOCK_SIZE, d0, w0, c, c');
    BlocksCover(|c|);
    var ok, written := WriteExisting(disk, node, data, off, inum, d0, w0, c);
    if !ok {
      return if written == 0 then -1 else written;
    }
    written := WriteNew(disk, node, data, off, written, inum, d0, w0, c);
    ghost var rec := node.Rec();
    var add := off + written - node.size;
    add := if add > 0 then add else 0;
    node.size := node.size + add;
    if written == |data| {
      Resized(disk.D(), lo, disk.freelistHead, disk.w, rec, inum, rec.blocks, d0, w0, c, c', node.size);
      WriteDone(disk.D(), lo, disk.freelistHead, disk.w, node.Rec(), inum, d0, w0, c, off, data);
      WritingFacts(disk.D(), lo, disk.freelistHead, disk.w, node.Rec(), inum, rec.blocks, d0, w0, c, c');
      UpdateOk(d0, lo, head0, w0, inodes0, disk.D(), disk.freelistHead, disk.w, node.Rec(), inum);
    } else {
      ShortBlocks(disk.D(), lo, disk.freelistHead, disk.w, rec, inum, c, off, data, written, node.size);
      ShortShape(|c|, off, |data|, node.blocks);
    }
    ok := WriteInode(disk, inum, node);
    if !ok {
      return -1;
    }
    return written;
  }

  lemma BlocksCover(size: int)
    requires 0 <= size
    ensures 0 <= BlocksFor(size) && size <= BlocksFor(size) * BLOCK_SIZE
  {
  }
}
