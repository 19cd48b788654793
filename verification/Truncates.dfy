/** Truncating a file: removing its blocks behind the cut, or extending it with zeros. */
module Truncates {
  import opened Blocks
  import opened Ownership
  import opened BlockMap
  import opened Cutting
  import opened Disk
  import opened Lookup
  import opened Append
  import opened Truncation
  import opened Removal
  import opened DoubleRemoval
  import opened Inodes
  import opened Content
  import opened Files
  import opened Writes

  /** Removes the blocks from `n` on, by the region that `n` falls in. */
  method RemoveDatablocksFromInode(disk: Disk, node: Inode, ghost ino: int, n: int) returns (ok: bool)
    requires InodeOk(disk.D(), disk.inodeBlocks + 1, disk.freelistHead, disk.w, node.Rec(), ino)
    requires 0 <= n && (n < node.blocks ==> disk.freelistHead != 0 && (n <= Start(2) || node.blocks <= Start(3)))
    modifies disk`freelistHead, disk`w, disk.store, node
    ensures ok == (n < old(node.blocks)) && disk.Sound()
    ensures !ok ==> node.Rec() == old(node.Rec()) && disk.D() == old(disk.D()) && disk.w == old(disk.w)
    ensures ok ==> disk.freelistHead != 0
    ensures ok && n <= Start(2) ==>
      Truncated(old(disk.D()), old(disk.w), old(node.Rec()), disk.D(), disk.w, node.Rec(), ino, n)
    ensures ok && n > Start(2) ==>
      CutInDouble(old(disk.D()), old(disk.w), old(node.Rec()), disk.D(), disk.w, node.Rec(), ino, n)
  {
    hide WorldOk, FileOk, Truncated, CutInDouble;
    if n >= node.blocks {
      return false;
    }
    if n <= DIRECT {
      ok := RemoveFromDirect(disk, node, ino, n);
      return;
    }
    if n - DIRECT <= K {
      ok := RemoveFromSingle(disk, node, ino, n);
      return;
    }
    ok := RemoveFromDouble(disk, node, ino, n);
  }

  /** A cut at `n` that leaves a well-formed file. */
  predicate ExactCut(blocks: int, n: int) {
    n <= Start(2) || (blocks <= Start(3) && SameLeaf(blocks, n))
  }

  lemma TruncatedData(d: seq<Block>, lo: int, head: int, w: World, rec: InodeRec, d': seq<Block>, w': World,
                      rec': InodeRec, ino: int, n: int, k: int)
    requires InodeOk(d, lo, head, w, rec, ino) && 0 <= k < n <= rec.blocks
    requires Truncated(d, w, rec, d', w', rec', ino, n)
    ensures DataAt(w'.files[ino], k) == DataAt(w.files[ino], k)
    ensures 0 <= DataAt(w.files[ino], k) < |d| && d'[DataAt(w.files[ino], k)] == d[DataAt(w.files[ino], k)]
  {
    hide WorldOk, FileOk;
    DataOwner(d, lo, head, w, rec, ino, k);
    FactsOf(d, lo, head, w, rec, ino);
    LookupSizes(w.files[ino], rec.blocks, k);
    InPrefix(n, k);
  }

  /** Cutting refines taking a prefix: the blocks of the shorter file are the first `n` of the list. */
  lemma TruncateRefines(d: seq<Block>, lo: int, head: int, w: World, rec: InodeRec, d': seq<Block>, w': World,
                        rec': InodeRec, ino: int, n: int)
    requires InodeOk(d, lo, head, w, rec, ino) && 0 <= n <= rec.blocks <= MAX_BLOCKS
    requires Truncated(d, w, rec, d', w', rec', ino, n)
    ensures rec'.blocks == n && |w'.files| == |w.files|
    ensures Mapping(w'.files[ino], n) == Mapping(w.files[ino], rec.blocks)[..n]
  {
    hide WorldOk, FileOk, NumFree, DataAt, Cut;
    forall k | 0 <= k < n ensures DataAt(w'.files[ino], k) == DataAt(w.files[ino], k) {
      TruncatedData(d, lo, head, w, rec, d', w', rec', ino, n, k);
    }
  }

  lemma InPrefix(n: int, k: int)
    requires 0 <= k < n <= MAX_BLOCKS
    ensures k - Start(Region(k)) < Need(Region(k), 0, n)
  {
  }

  /** Removing blocks of one inode keeps the others. */
  lemma TruncatedOthers(d: seq<Block>, lo: int, head: int, w: World, rec: InodeRec, d': seq<Block>, w': World,
                        rec': InodeRec, ino: int, n: int)
    requires InodeOk(d, lo, head, w, rec, ino) && 0 <= n <= rec.blocks
    requires Truncated(d, w, rec, d', w', rec', ino, n)
    ensures OthersKept(d, w, d', w', ino)
  {
    hide Cut, FileOk, NumFree;
  }

  /** Whole blocks of the content are blocks of any prefix that contains them. */
  lemma PrefixBlock(b: seq<byte>, c: seq<byte>, length: int, k: int)
    requires 0 <= k && 0 <= length <= |c| && (k + 1) * BLOCK_SIZE <= length && IsBlock(b, c, k)
    ensures IsBlock(b, c[..length], k)
  {
  }

  /** Zeroing the bytes from `at` on gives the last block of the prefix. */
  lemma ZeroedTail(b: seq<byte>, c: seq<byte>, length: int, k: int, at: int)
    requires 0 <= k && 0 <= length <= |c| && IsBlock(b, c, k)
    requires 0 < at <= BLOCK_SIZE && length == k * BLOCK_SIZE + at
    ensures |b| == BLOCK_SIZE && IsBlock(Splice(b, at, Zeros(BLOCK_SIZE - at)), c[..length], k)
  {
  }

  /** After the removal only the last block may still hold more than the prefix. */
  lemma ShrinkStart(d: seq<Block>, lo: int, head: int, w: World, rec: InodeRec, ino: int, c: seq<byte>,
                    d': seq<Block>, head': int, w': World, rec': InodeRec, length: int)
    requires InodeOk(d, lo, head, w, rec, ino) && HasContent(d, rec, w.files[ino], c)
    requires 0 < length <= |c|
    requires WorldOk(d', lo, head', w')
    requires
      var n := BlocksFor(length);
      if n < rec.blocks then Truncated(d, w, rec, d', w', rec', ino, n)
      else d' == d && w' == w && rec' == rec
    ensures rec'.blocks == BlocksFor(length)
    ensures Writing(d', lo, head', w', rec', ino, BlocksFor(length) - 1, d, w, c, c[..length])
  {
    hide WorldOk, FileOk, IsBlock, OthersKept, DataAt;
    var n := BlocksFor(length);
    FactsOf(d, lo, head, w, rec, ino);
    if n < rec.blocks {
      TruncatedOthers(d, lo, head, w, rec, d', w', rec', ino, n);
    } else {
      NoChange(d, lo, head, w, ino);
    }
    forall k | 0 <= k < n
      ensures BlockHolds(d', w'.files[ino], k, c)
      ensures k < n - 1 ==> BlockHolds(d', w'.files[ino], k, c[..length])
    {
      assert BlockHolds(d, w.files[ino], k, c);
      if n < rec.blocks {
        TruncatedData(d, lo, head, w, rec, d', w', rec', ino, n, k);
      }
      if k < n - 1 {
        PrefixBlock(BytesOf(d'[DataAt(w'.files[ino], k)]), c, length, k);
      }
    }
  }

  /** Zeroes the last block of the prefix behind its end. */
  method ZeroTail(disk: Disk, node: Inode, length: int, ghost ino: int, ghost d0: seq<Block>, ghost w0: World, ghost c: seq<byte>)
    returns (ok: bool)
    requires 0 < length <= |c| && node.blocks == BlocksFor(length)
    requires Writing(disk.D(), disk.inodeBlocks + 1, disk.freelistHead, disk.w, node.Rec(), ino, node.blocks - 1,
                     d0, w0, c, c[..length])
    modifies disk.store
    ensures ok
    ensures Writing(disk.D(), disk.inodeBlocks + 1, disk.freelistHead, disk.w, node.Rec(), ino, node.blocks,
                    d0, w0, c, c[..length])
  {
    hide Writing, IsBlock, DataAt, HintOk, WorldOk, FileOk, BlockHolds, Region;
    ghost var lo, rec, n := disk.inodeBlocks + 1, node.Rec(), node.blocks;
    var last := (length - 1) / BLOCK_SIZE;
    WritingFacts(disk.D(), lo, disk.freelistHead, disk.w, rec, ino, n - 1, d0, w0, c, c[..length]);
    HintZero(disk.w.files[ino], last);
    ghost var before := OldBlock(disk.D(), lo, disk.freelistHead, disk.w, rec, ino, last, d0, w0, c, c[..length]);
    var x, _ := GetDiskBlock(disk, node, ino, last, 0);
    if x <= 0 {
      return false;
    }
    var _, block := disk.ReadDataBlock(x);
    var offset := (length - 1) % BLOCK_SIZE;
    ZeroedTail(before, c, length, last, offset + 1);
    if offset != BLOCK_SIZE - 1 {
      var data := Splice(BytesOf(block), offset + 1, Zeros(BLOCK_SIZE - offset - 1));
      ok := WriteFileBlock(disk, x, data, rec, ino, last, d0, w0, c, c[..length]);
    } else {
      PrefixBlock(before, c, length, last);
      WritingFull(disk.D(), lo, disk.freelistHead, disk.w, rec, ino, last, d0, w0, c, c[..length]);
      ok := true;
    }
  }

  lemma WritingFull(d: seq<Block>, lo: int, head: int, w: World, rec: InodeRec, ino: int, i: int,
                    d0: seq<Block>, w0: World, c: seq<byte>, c': seq<byte>)
    requires Writing(d, lo, head, w, rec, ino, i, d0, w0, c, c') && 0 <= i < rec.blocks
    requires
      var x := DataAt(w.files[ino], i);
      0 <= x < |d| && IsBlock(BytesOf(d[x]), c', i)
    ensures Writing(d, lo, head, w, rec, ino, i + 1, d0, w0, c, c')
  {
    hide IsBlock, DataAt, FileOk, WorldOk;
  }

  /** The file system after inode `inum` has got the content `c'`. */
  ghost predicate Updated(d0: seq<Block>, w0: World, inodes0: seq<InodeRec>,
                          d: seq<Block>, lo: int, head: int, w: World, inodes: seq<InodeRec>,
                          inum: int, c': seq<byte>)
    requires 0 <= inum < |inodes0| == |inodes|
  {
    var rec0, rec := inodes0[inum], inodes[inum];
    && FsOk(d, lo, head, w, inodes) && OthersKept(d0, w0, d, w, inum)
    && inodes == inodes0[inum := rec] && SameAttributes(rec0.(size := rec.size), rec)
    && HasContent(d, rec, w.files[inum], c')
    && NumFree(w.owner) == NumFree(w0.owner) - Cost(rec0.blocks, rec.blocks)
  }

  /** Cuts a file to the first `length` bytes of its content. */
  method Shrink(disk: Disk, inum: int, node: Inode, length: int, ghost c: seq<byte>) returns (r: int)
    requires TableOk(disk) && 0 <= inum < |disk.inodes| && node.Rec() == disk.inodes[inum]
    requires FsOk(disk.D(), disk.inodeBlocks + 1, disk.freelistHead, disk.w, disk.inodes)
    requires InodeOk(disk.D(), disk.inodeBlocks + 1, disk.freelistHead, disk.w, node.Rec(), inum)
    requires HasContent(disk.D(), node.Rec(), disk.w.files[inum], c) && 0 <= length <= |c|
    requires BlocksFor(length) < node.blocks ==> disk.freelistHead != 0 && ExactCut(node.blocks, BlocksFor(length))
    modifies disk`freelistHead, disk`w, disk`inodes, disk.store, node
    ensures r == 0 && |disk.inodes| == |old(disk.inodes)|
    ensures Updated(old(disk.D()), old(disk.w), old(disk.inodes), disk.D(), disk.inodeBlocks + 1, disk.freelistHead, disk.w,
                    disk.inodes, inum, c[..length])
  {
    hide Writing, WorldOk, NumFree, OthersKept, FileOk, FsOk, Cost, BlockHolds, HasContent, Truncated,
         CutInDouble, Updated, IndexBlocks;
    ghost var d0, head0, w0, inodes0, lo := disk.D(), disk.freelistHead, disk.w, disk.inodes, disk.inodeBlocks + 1;
    ghost var rec := node.Rec();
    SizeOf(d0, lo, head0, w0, rec, inum, c);
    var last := if length == 0 then -1 else (length - 1) / BLOCK_SIZE;
    if node.blocks > last + 1 {
      var _ := RemoveDatablocksFromInode(disk, node, inum, last + 1);
      Exactly(d0, lo, head0, w0, rec, disk.D(), disk.w, node.Rec(), inum, last + 1);
    }
    ghost var short := node.Rec();
    if last == -1 {
      node.size := 0;
      EmptyDone(d0, lo, head0, w0, rec, inum, disk.D(), disk.freelistHead, disk.w, short, c);
    } else {
      ShrinkStart(d0, lo, head0, w0, rec, inum, c, disk.D(), disk.freelistHead, disk.w, short, length);
      var ok := ZeroTail(disk, node, length, inum, d0, w0, c);
      if !ok {
        return -1;
      }
      node.size := length;
      ShrinkDone(disk.D(), lo, disk.freelistHead, disk.w, short, inum, d0, w0, c, length);
    }
    FreedCost(d0, w0, rec, disk.w, short, inum, last + 1);
    UpdateOk(d0, lo, head0, w0, inodes0, disk.D(), disk.freelistHead, disk.w, node.Rec(), inum);
    UpdatedDone(d0, w0, inodes0, disk.D(), lo, disk.freelistHead, disk.w, inodes0[inum := node.Rec()], inum, c[..length]);
    var _ := WriteInode(disk, inum, node);
    return 0;
  }

  /** Sets the length of a file: cuts its content, or extends it with zeros. */
  method Truncate(disk: Disk, inum: int, length: int, ghost c: seq<byte>) returns (r: int)
    requires TableOk(disk) && 0 <= inum < |disk.inodes|
    requires FsOk(disk.D(), disk.inodeBlocks + 1, disk.freelistHead, disk.w, disk.inodes)
    requires HasContent(disk.D(), disk.inodes[inum], disk.w.files[inum], c)
    requires 0 <= length && BlocksFor(length) < disk.inodes[inum].blocks ==>
      disk.freelistHead != 0 && ExactCut(disk.inodes[inum].blocks, BlocksFor(length))
    modifies disk`freelistHead, disk`w, disk`inodes, disk.store
    ensures TableOk(disk) && |disk.inodes| == |old(disk.inodes)|
    ensures length < 0 ==> r == -EINVAL
    ensures length < 0 || length == |c| == 0 ==>
      disk.D() == old(disk.D()) && disk.w == old(disk.w) && disk.inodes == old(disk.inodes)
      && disk.freelistHead == old(disk.freelistHead)
    ensures 0 <= length <= |c| ==> r == 0
    ensures length > |c| ==>
      r == if Fits(old(disk.inodes[inum].blocks), |c|, length - |c|, old(NumFree(disk.w.owner))) then 0 else -1
    ensures r == 0 ==>
      Updated(old(disk.D()), old(disk.w), old(disk.inodes), disk.D(), disk.inodeBlocks + 1, disk.freelistHead, disk.w,
              disk.inodes, inum, if length <= |c| then c[..length] else c + Zeros(length - |c|))
    ensures r == -1 ==>
      WrittenPartly(old(disk.D()), old(disk.w), old(disk.inodes), disk.D(), disk.inodeBlocks + 1, disk.freelistHead, disk.w,
                    disk.inodes, inum, Zeros(length - |c|), |c|, c)
    ensures r == 0 || r == -1 || r == -EINVAL
  {
    hide WorldOk, NumFree, OthersKept, Overlay, FileOk, FsOk, Cost, Fits, HasContent, Updated, Written, BlocksFor;
    ghost var d0, head0, w0, inodes0, lo := disk.D(), disk.freelistHead, disk.w, disk.inodes, disk.inodeBlocks + 1;
    var node := GetInode(disk, inum);
    FsInode(d0, lo, head0, w0, inodes0, inum);
    SizeOf(d0, lo, head0, w0, node.Rec(), inum, c);
    if length < 0 {
      return -EINVAL;
    }
    if length == 0 && node.size == 0 {
      Unchanged(d0, lo, head0, w0, inodes0, inum, c);
      return 0;
    }
    if length > node.size {
      var add := length - node.size;
      var zeros := Zeros(add);
      var written := Write(disk, inum, zeros, node.size, c);
      ExtendDone(d0, w0, inodes0, disk.D(), lo, disk.freelistHead, disk.w, disk.inodes, inum, length, c, written);
      return if written == add then 0 else -1;
    }
    r := Shrink(disk, inum, node, length, c);
  }

  lemma SizeOf(d: seq<Block>, lo: int, head: int, w: World, rec: InodeRec, ino: int, c: seq<byte>)
    requires InodeOk(d, lo, head, w, rec, ino) && HasContent(d, rec, w.files[ino], c)
    ensures 0 <= ino < |w.files| && rec.size == |c| && rec.blocks == BlocksFor(|c|) <= MAX_BLOCKS
  {
  }

  lemma Unchanged(d: seq<Block>, lo: int, head: int, w: World, inodes: seq<InodeRec>, inum: int, c: seq<byte>)
    requires FsOk(d, lo, head, w, inodes) && 0 <= inum < |inodes| && HasContent(d, inodes[inum], w.files[inum], c)
    requires inodes[inum].size == 0
    ensures Updated(d, w, inodes, d, lo, head, w, inodes, inum, c[..0])
  {
    assert c == [] && c[..0] == [];
  }

  /** Writing zeros at the end extends the content by them. */
  lemma ExtendDone(d0: seq<Block>, w0: World, inodes0: seq<InodeRec>,
                   d: seq<Block>, lo: int, head: int, w: World, inodes: seq<InodeRec>,
                   inum: int, length: int, c: seq<byte>, r: int)
    requires 0 <= inum < |inodes0| == |inodes| && length > |c|
    requires Written(d0, w0, inodes0, d, lo, head, w, inodes, inum, Zeros(length - |c|), |c|, c, r)
    ensures r == length - |c| ==> Updated(d0, w0, inodes0, d, lo, head, w, inodes, inum, c + Zeros(length - |c|))
    ensures r == length - |c| <==> Fits(inodes0[inum].blocks, |c|, length - |c|, NumFree(w0.owner))
    ensures r != length - |c| ==>
      WrittenPartly(d0, w0, inodes0, d, lo, head, w, inodes, inum, Zeros(length - |c|), |c|, c)
  {
    hide FsOk, OthersKept, HasContent, NumFree, Cost, WorldOk, Fits;
    var data := Zeros(length - |c|);
    assert Overlay(c, |c|, data) == c + data;
  }

  /** A removal at an exact cut is an exact removal. */
  lemma Exactly(d: seq<Block>, lo: int, head: int, w: World, rec: InodeRec, d': seq<Block>, w': World, rec': InodeRec,
                ino: int, n: int)
    requires InodeOk(d, lo, head, w, rec, ino) && 0 <= n < rec.blocks && ExactCut(rec.blocks, n)
    requires n <= Start(2) ==> Truncated(d, w, rec, d', w', rec', ino, n)
    requires n > Start(2) ==> CutInDouble(d, w, rec, d', w', rec', ino, n)
    ensures Truncated(d, w, rec, d', w', rec', ino, n)
  {
    hide Truncated, CutInDouble, FileOk, WorldOk;
    if n > Start(2) {
      RemovalExactIff(d, lo, head, w, rec, d', w', rec', ino, n);
    }
  }

  lemma FreedCost(d: seq<Block>, w: World, rec: InodeRec, w': World, rec': InodeRec, ino: int, n: int)
    requires 0 <= ino < |w.files| && 0 <= n <= rec.blocks <= MAX_BLOCKS
    requires
      if n < rec.blocks then exists d' :: Truncated(d, w, rec, d', w', rec', ino, n)
      else w' == w && rec' == rec
    ensures NumFree(w'.owner) == NumFree(w.owner) - Cost(rec.blocks, rec'.blocks)
    ensures SameAttributes(rec, rec')
  {
    hide IndexBlocks, FileOk, Cut, NumFree;
  }

  /** Cut down to nothing. */
  lemma EmptyDone(d: seq<Block>, lo: int, head: int, w: World, rec: InodeRec, ino: int,
                  d': seq<Block>, head': int, w': World, rec': InodeRec, c: seq<byte>)
    requires InodeOk(d, lo, head, w, rec, ino) && WorldOk(d', lo, head', w')
    requires
      if 0 < rec.blocks then Truncated(d, w, rec, d', w', rec', ino, 0)
      else d' == d && w' == w && rec' == rec
    ensures InodeOk(d', lo, head', w', rec'.(size := 0), ino) && OthersKept(d, w, d', w', ino)
    ensures HasContent(d', rec'.(size := 0), w'.files[ino], c[..0])
  {
    hide FileOk, WorldOk, NumFree;
    FactsOf(d, lo, head, w, rec, ino);
    if 0 < rec.blocks {
      TruncatedOthers(d, lo, head, w, rec, d', w', rec', ino, 0);
      SizeFree(d', rec', w'.files[ino], 0);
    } else {
      NoChange(d, lo, head, w, ino);
      SizeFree(d, rec, w.files[ino], 0);
    }
  }

  lemma SizeFree(d: seq<Block>, rec: InodeRec, f: FileMap, size: int)
    requires FileOk(d, rec, f)
    ensures FileOk(d, rec.(size := size), f)
  {
    hide Shaped, TreesOk;
  }

  lemma ShrinkDone(d: seq<Block>, lo: int, head: int, w: World, rec: InodeRec, ino: int,
                   d0: seq<Block>, w0: World, c: seq<byte>, length: int)
    requires 0 < length <= |c| && rec.blocks == BlocksFor(length)
    requires Writing(d, lo, head, w, rec, ino, rec.blocks, d0, w0, c, c[..length])
    ensures InodeOk(d, lo, head, w, rec.(size := length), ino) && OthersKept(d0, w0, d, w, ino)
    ensures HasContent(d, rec.(size := length), w.files[ino], c[..length])
  {
    hide FileOk, WorldOk, BlockHolds, OthersKept;
    WritingFacts(d, lo, head, w, rec, ino, rec.blocks, d0, w0, c, c[..length]);
    SizeFree(d, rec, w.files[ino], length);
  }

  lemma UpdatedDone(d0: seq<Block>, w0: World, inodes0: seq<InodeRec>,
                    d: seq<Block>, lo: int, head: int, w: World, inodes: seq<InodeRec>, inum: int, c': seq<byte>)
    requires 0 <= inum < |inodes0| == |inodes|
    requires FsOk(d, lo, head, w, inodes) && OthersKept(d0, w0, d, w, inum)
    requires inodes == inodes0[inum := inodes[inum]]
    requires SameAttributes(inodes0[inum].(size := inodes[inum].size), inodes[inum])
    requires HasContent(d, inodes[inum], w.files[inum], c')
    requires NumFree(w.owner) == NumFree(w0.owner) - Cost(inodes0[inum].blocks, inodes[inum].blocks)
    ensures Updated(d0, w0, inodes0, d, lo, head, w, inodes, inum, c')
  {
    hide FsOk, OthersKept, HasContent, NumFree, Cost;
  }
}
