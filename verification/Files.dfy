/** Reading, writing and truncating the bytes of an inode. */
module Files {
  import opened Blocks
  import opened Ownership
  import opened FreeList
  import opened BlockMap
  import opened Attaching
  import opened Disk
  import opened Lookup
  import opened Append
  import opened Truncation
  import opened Removal
  import opened Inodes
  import opened Content

  const EINVAL: int := 22
  const EOVERFLOW: int := 75

  /** Nothing of the other inodes has changed: not their trees, and not one block. */
  ghost predicate OthersKept(d: seq<Block>, w: World, d': seq<Block>, w': World, ino: int) {
    && |d'| == |d| && |w'.files| == |w.files|
    && (forall i :: 0 <= i < |w.files| && i != ino ==> w'.files[i] == w.files[i])
    && (forall x :: x in w.owner && w.owner[x].At? && w.owner[x].ino != ino ==>
          x in w'.owner && w'.owner[x] == w.owner[x] && 0 <= x < |d| && d'[x] == d[x])
  }

  lemma NoChange(d: seq<Block>, lo: int, head: int, w: World, ino: int)
    requires WorldOk(d, lo, head, w)
    ensures OthersKept(d, w, d, w, ino)
  {
  }

  /** So every other inode still maps the same blocks with the same bytes. */
  lemma OtherFileKept(d: seq<Block>, lo: int, head: int, w: World, d': seq<Block>, w': World, ino: int,
                      i: int, rec: InodeRec, c: seq<byte>)
    requires InodeOk(d, lo, head, w, rec, i) && i != ino && OthersKept(d, w, d', w', ino)
    ensures FileOk(d', rec, w'.files[i])
    ensures HasContent(d, rec, w.files[i], c) ==> HasContent(d', rec, w'.files[i], c)
  {
    TreesFrame(d, d', w, i);
    if HasContent(d, rec, w.files[i], c) {
      forall k | 0 <= k < rec.blocks ensures BlockHolds(d', w'.files[i], k, c) {
        DataOwner(d, lo, head, w, rec, i, k);
        assert BlockHolds(d, w.files[i], k, c);
      }
    }
  }

  /** Reads up to `n` bytes at `off`: the number of bytes, or an error, and the bytes. */
  method Read(disk: Disk, inum: int, n: nat, off: int, ghost c: seq<byte>) returns (r: int, buff: seq<byte>)
    requires TableOk(disk) && 0 <= inum < |disk.inodes|
    requires FsOk(disk.D(), disk.inodeBlocks + 1, disk.freelistHead, disk.w, disk.inodes)
    requires HasContent(disk.D(), disk.inodes[inum], disk.w.files[inum], c)
    ensures r <= 0 ==> buff == []
    ensures n == 0 ==> r == 0
    ensures n > 0 && off < 0 ==> r == -EINVAL
    ensures n > 0 && 0 <= off && c == [] ==> r == 0
    ensures n > 0 && 0 <= off && 0 < |c| <= off ==> r == -EOVERFLOW
    ensures n > 0 && 0 <= off < |c| ==>
      && r == (if off + n <= |c| then n else |c| - off)
      && |buff| == r && buff == c[off..off + r]
  {
    buff := [];
    if n == 0 {
      return 0, [];
    }
    if off < 0 {
      return -EINVAL, [];
    }
    var node := GetInode(disk, inum);
    if node.size == 0 {
      return 0, [];
    }
    if off >= node.size {
      return -EOVERFLOW, [];
    }
    r, buff := ReadBlocks(disk, node, inum, if off + n > node.size then node.size - off else n, off, c);
  }

  /** The bytes of block `k` of the file. */
  method ReadFileBlock(disk: Disk, node: Inode, ghost ino: int, k: int, prev: int, ghost c: seq<byte>)
    returns (x: int, prev': int, b: seq<byte>)
    requires InodeOk(disk.D(), disk.inodeBlocks + 1, disk.freelistHead, disk.w, node.Rec(), ino)
    requires 0 <= k < node.blocks && BlockHolds(disk.D(), disk.w.files[ino], k, c)
    requires HintOk(disk.w.files[ino], k, prev)
    ensures x > 0 && x == DataAt(disk.w.files[ino], k) && HintOk(disk.w.files[ino], k + 1, prev')
    ensures IsBlock(b, c, k)
  {
    hide WorldOk, FileOk, HintOk, IsBlock;
    DataOwner(disk.D(), disk.inodeBlocks + 1, disk.freelistHead, disk.w, node.Rec(), ino, k);
    FactsOf(disk.D(), disk.inodeBlocks + 1, disk.freelistHead, disk.w, node.Rec(), ino);
    x, prev' := GetDiskBlock(disk, node, ino, k, prev);
    var _, block := disk.ReadDataBlock(x);
    b := BytesOf(block);
  }

  method ReadBlocks(disk: Disk, node: Inode, ghost ino: int, n: int, off: int, ghost c: seq<byte>)
    returns (r: int, buff: seq<byte>)
    requires InodeOk(disk.D(), disk.inodeBlocks + 1, disk.freelistHead, disk.w, node.Rec(), ino)
    requires HasContent(disk.D(), node.Rec(), disk.w.files[ino], c)
    requires 0 < n && 0 <= off && off + n <= |c|
    ensures r == n && buff == c[off..off + n]
  {
    hide WorldOk, FileOk, HintOk, BlockHolds, Region, Start;
    var start, from := off / BLOCK_SIZE, off % BLOCK_SIZE;
    var end, to := (off + n - 1) / BLOCK_SIZE, (off + n - 1) % BLOCK_SIZE;
    var count := end - start + 1;
    var prev := 0;
    buff := [];
    HintZero(disk.w.files[ino], start);
    if count == 1 {
      var x, b;
      x, prev, b := ReadFileBlock(disk, node, ino, start, prev, c);
      if x <= 0 {
        return -1, [];
      }
      buff := b[from..from + n];
    } else {
      for i := 0 to count
        invariant HintOk(disk.w.files[ino], start + i, prev)
        invariant |buff| == if i == 0 then 0 else if i < count then (start + i) * BLOCK_SIZE - off else n
        invariant forall t :: 0 <= t < |buff| ==> buff[t] == c[off + t]
      {
        var x, b;
        x, prev, b := ReadFileBlock(disk, node, ino, start + i, prev, c);
        if x <= 0 {
          return -1, [];
        }
        if i == 0 {
          buff := buff + b[from..];
        } else if i == count - 1 {
          buff := buff + b[..to + 1];
        } else {
          buff := buff + b;
        }
      }
    }
    r := |buff|;
  }

  /** In the middle of turning the content `c` of inode `ino` into `c'`: the blocks
      before block `i` are done. */
  ghost predicate Writing(d: seq<Block>, lo: int, head: int, w: World, rec: InodeRec, ino: int, i: int,
                          d0: seq<Block>, w0: World, c: seq<byte>, c': seq<byte>) {
    && InodeOk(d, lo, head, w, rec, ino) && OthersKept(d0, w0, d, w, ino)
    && (forall k :: 0 <= k < rec.blocks && k < i ==> BlockHolds(d, w.files[ino], k, c'))
    && (forall k :: 0 <= k < rec.blocks && k >= i ==> BlockHolds(d, w.files[ino], k, c))
  }

  lemma WritingStart(d: seq<Block>, lo: int, head: int, w: World, rec: InodeRec, ino: int, c: seq<byte>,
                     off: int, data: seq<byte>)
    requires InodeOk(d, lo, head, w, rec, ino) && HasContent(d, rec, w.files[ino], c)
    requires 0 <= off && data != []
    ensures Writing(d, lo, head, w, rec, ino, off / BLOCK_SIZE, d, w, c, Overlay(c, off, data))
  {
    hide FileOk, IsBlock, Overlay;
    FactsOf(d, lo, head, w, rec, ino);
    forall k | 0 <= k < rec.blocks && k < off / BLOCK_SIZE
      ensures BlockHolds(d, w.files[ino], k, Overlay(c, off, data))
    {
      assert BlockHolds(d, w.files[ino], k, c);
      UnwrittenBlock(c, off, data, k, BytesOf(d[DataAt(w.files[ino], k)]));
    }
  }

  /** Blocks behind the end of the write are done without being touched. */
  lemma WritingSkip(d: seq<Block>, lo: int, head: int, w: World, rec: InodeRec, ino: int, i: int, j: int,
                    d0: seq<Block>, w0: World, c: seq<byte>, off: int, data: seq<byte>)
    requires 0 <= i <= j && 0 <= off && data != []
    requires Writing(d, lo, head, w, rec, ino, i, d0, w0, c, Overlay(c, off, data))
    requires off + |data| <= i * BLOCK_SIZE || (rec.blocks <= j && j * BLOCK_SIZE <= off)
    ensures Writing(d, lo, head, w, rec, ino, j, d0, w0, c, Overlay(c, off, data))
  {
    hide FileOk, IsBlock, Overlay, WorldOk;
    FactsOf(d, lo, head, w, rec, ino);
    forall k | 0 <= k < rec.blocks && i <= k < j
      ensures BlockHolds(d, w.files[ino], k, Overlay(c, off, data))
    {
      assert BlockHolds(d, w.files[ino], k, c);
      UnwrittenBlock(c, off, data, k, BytesOf(d[DataAt(w.files[ino], k)]));
    }
  }

  /** Writing one data block of the inode keeps everything but that block. */
  lemma DataWrite(d: seq<Block>, lo: int, head: int, w: World, rec: InodeRec, ino: int, k: int, b: Block)
    requires InodeOk(d, lo, head, w, rec, ino) && 0 <= k < rec.blocks
    ensures
      var x := DataAt(w.files[ino], k);
      && 0 < lo <= x < |d| && x in w.owner && w.owner[x] == At(ino, Region(k), 0, k - Start(Region(k)))
      && InodeOk(d[x := b], lo, head, w, rec, ino)
      && (forall l :: 0 <= l < rec.blocks && l != k ==> DataAt(w.files[ino], l) != x)
  {
    hide Shaped, PointersOk;
    var x := DataAt(w.files[ino], k);
    DataOwner(d, lo, head, w, rec, ino, k);
    var d' := d[x := b];
    forall l | 0 <= l < rec.blocks && l != k ensures DataAt(w.files[ino], l) != x {
      DataOwner(d, lo, head, w, rec, ino, l);
    }
    FreeListFrame(d, head, w.chain, w.owner, d', w.owner);
    IndexFrame(d, d', w, ino, x);
  }

  lemma IndexFrame(d: seq<Block>, d': seq<Block>, w: World, ino: int, x: int)
    requires PositionsOk(w.owner, w.files) && 0 <= ino < |w.files| && TreesOk(d, w.files[ino]) && |d'| == |d|
    requires x in w.owner && w.owner[x].At? && w.owner[x].j == 0
    requires forall y :: 0 <= y < |d| && y != x ==> d'[y] == d[y]
    ensures TreesOk(d', w.files[ino])
  {
    var f := w.files[ino];
    forall r, j | 0 <= j < r < 4 ensures Links(d', f[r][j + 1], f[r][j]) {
      assert Links(d, f[r][j + 1], f[r][j]);
      var ps := f[r][j + 1];
      forall i | 0 <= i < |ps| ensures d'[ps[i]] == d[ps[i]] {
        assert w.owner[w.files[ino][r][j + 1][i]] == At(ino, r, j + 1, i);
      }
      LinksFrame(d, d', f[r][j + 1], f[r][j]);
    }
  }

  lemma WritingNext(d: seq<Block>, lo: int, head: int, w: World, rec: InodeRec, ino: int, i: int,
                    d0: seq<Block>, w0: World, c: seq<byte>, c': seq<byte>, buf: seq<byte>)
    requires Writing(d, lo, head, w, rec, ino, i, d0, w0, c, c') && 0 <= i < rec.blocks <= MAX_BLOCKS
    requires |buf| == BLOCK_SIZE && IsBlock(buf, c', i)
    ensures
      var x := DataAt(w.files[ino], i);
      0 < lo <= x < |d| && Writing(d[x := BlockOf(buf)], lo, head, w, rec, ino, i + 1, d0, w0, c, c')
  {
    hide FileOk, WorldOk, IsBlock, Region, DataAt;
    var x := DataAt(w.files[ino], i);
    DataWrite(d, lo, head, w, rec, ino, i, BlockOf(buf));
    var d' := d[x := BlockOf(buf)];
    BytesRoundTrip(buf);
    forall k | 0 <= k < rec.blocks && k < i + 1 ensures BlockHolds(d', w.files[ino], k, c') {
      assert k < i ==> BlockHolds(d, w.files[ino], k, c');
    }
    forall k | 0 <= k < rec.blocks && k >= i + 1 ensures BlockHolds(d', w.files[ino], k, c) {
      assert BlockHolds(d, w.files[ino], k, c) && DataAt(w.files[ino], k) != x;
    }
    assert OthersKept(d0, w0, d', w, ino);
  }

  lemma BlockLength(buf: seq<byte>, c: seq<byte>, k: int)
    requires 0 <= k && IsBlock(buf, c, k)
    ensures |buf| == BLOCK_SIZE
  {
  }

  lemma WritingAny(d: seq<Block>, lo: int, head: int, w: World, rec: InodeRec, ino: int, i: int, j: int,
                   d0: seq<Block>, w0: World, c: seq<byte>, c': seq<byte>)
    requires Writing(d, lo, head, w, rec, ino, i, d0, w0, c, c') && rec.blocks <= i && rec.blocks <= j
    ensures Writing(d, lo, head, w, rec, ino, j, d0, w0, c, c')
  {
  }

  lemma WritingFacts(d: seq<Block>, lo: int, head: int, w: World, rec: InodeRec, ino: int, i: int,
                     d0: seq<Block>, w0: World, c: seq<byte>, c': seq<byte>)
    requires Writing(d, lo, head, w, rec, ino, i, d0, w0, c, c')
    ensures InodeOk(d, lo, head, w, rec, ino) && 0 <= rec.blocks <= MAX_BLOCKS
  {
  }

  /** Writes block `i` of the new content to its disk block `x`. */
  method WriteFileBlock(disk: Disk, x: int, buf: seq<byte>, ghost rec: InodeRec, ghost ino: int, ghost i: int,
                        ghost d0: seq<Block>, ghost w0: World, ghost c: seq<byte>, ghost c': seq<byte>)
    returns (ok: bool)
    requires Writing(disk.D(), disk.inodeBlocks + 1, disk.freelistHead, disk.w, rec, ino, i, d0, w0, c, c')
    requires 0 <= i < rec.blocks <= MAX_BLOCKS && x == DataAt(disk.w.files[ino], i)
    requires |buf| == BLOCK_SIZE && IsBlock(buf, c', i)
    modifies disk.store
    ensures ok
    ensures Writing(disk.D(), disk.inodeBlocks + 1, disk.freelistHead, disk.w, rec, ino, i + 1, d0, w0, c, c')
  {
    hide Writing, IsBlock, DataAt;
    WritingNext(disk.D(), disk.inodeBlocks + 1, disk.freelistHead, disk.w, rec, ino, i, d0, w0, c, c', buf);
    ok := disk.WriteDataBlock(x, BlockOf(buf));
  }

  /** How many bytes of the write lie before block `i`. */
  function Before(i: int, off: int, n: int): int {
    if i * BLOCK_SIZE <= off then 0 else if i * BLOCK_SIZE < off + n then i * BLOCK_SIZE - off else n
  }

  /** The bytes of the write that belong into block `i`. */
  lemma BlockPart(off: int, data: seq<byte>, i: int)
    requires 0 <= off && data != [] && off / BLOCK_SIZE <= i <= (off + |data| - 1) / BLOCK_SIZE
    ensures i * BLOCK_SIZE < off + |data| && off < (i + 1) * BLOCK_SIZE
    ensures 0 <= From(i, off) < BLOCK_SIZE && Before(i, off, |data|) < Before(i + 1, off, |data|) <= |data|
    ensures data[i * BLOCK_SIZE + From(i, off) - off..i * BLOCK_SIZE + To(i, off, |data|) - off] ==
      data[Before(i, off, |data|)..Before(i + 1, off, |data|)]
  {
  }

  /** Overwrites block `i`, disk block `x`, with its part of the write. */
  method OverwriteBlock(disk: Disk, x: int, data: seq<byte>, off: int, i: int, written: int,
                        ghost rec: InodeRec, ghost ino: int, ghost d0: seq<Block>, ghost w0: World, ghost c: seq<byte>)
    returns (ok: bool, written': int)
    requires data != [] && 0 <= off && 0 <= i < rec.blocks <= MAX_BLOCKS
    requires Writing(disk.D(), disk.inodeBlocks + 1, disk.freelistHead, disk.w, rec, ino, i, d0, w0, c, Overlay(c, off, data))
    requires off / BLOCK_SIZE <= i <= (off + |data| - 1) / BLOCK_SIZE && written == Before(i, off, |data|)
    requires x == DataAt(disk.w.files[ino], i)
    modifies disk.store
    ensures ok && written' == Before(i + 1, off, |data|)
    ensures Writing(disk.D(), disk.inodeBlocks + 1, disk.freelistHead, disk.w, rec, ino, i + 1, d0, w0, c, Overlay(c, off, data))
  {
    hide Writing, IsBlock, DataAt, Overlay, BlockHolds, WorldOk, FileOk;
    var n := |data|;
    var start, from := off / BLOCK_SIZE, off % BLOCK_SIZE;
    var end, to := (off + n - 1) / BLOCK_SIZE, (off + n - 1) % BLOCK_SIZE;
    ghost var before := OldBlock(disk.D(), disk.inodeBlocks + 1, disk.freelistHead, disk.w, rec, ino, i, d0, w0, c, Overlay(c, off, data));
    WrittenPart(c, off, data, i, before);
    var buf;
    if i != start && i != end {
      buf := data[written..written + BLOCK_SIZE];
      written' := written + BLOCK_SIZE;
    } else {
      var _, block := disk.ReadDataBlock(x);
      buf := BytesOf(block);
      if i == start {
        var count := if from + n > BLOCK_SIZE then BLOCK_SIZE - from else n;
        buf := Splice(buf, from, data[..count]);
        written' := written + count;
      } else {
        buf := Splice(buf, 0, data[written..written + to + 1]);
        written' := written + to + 1;
      }
    }
    ok := WriteFileBlock(disk, x, buf, rec, ino, i, d0, w0, c, Overlay(c, off, data));
  }

  /** What block `i` holds before the write gets to it. */
  ghost function OldBlock(d: seq<Block>, lo: int, head: int, w: World, rec: InodeRec, ino: int, i: int,
                          d0: seq<Block>, w0: World, c: seq<byte>, c': seq<byte>): (b: seq<byte>)
    requires Writing(d, lo, head, w, rec, ino, i, d0, w0, c, c') && 0 <= i < rec.blocks
    ensures IsBlock(b, c, i)
    ensures
      var x := DataAt(w.files[ino], i);
      lo <= x < |d| && b == BytesOf(d[x])
  {
    DataOwner(d, lo, head, w, rec, ino, i);
    assert BlockHolds(d, w.files[ino], i, c);
    BytesOf(d[DataAt(w.files[ino], i)])
  }

  /** First loop: overwrites the blocks that the file already has. */
  method WriteExisting(disk: Disk, node: Inode, data: seq<byte>, off: int, ghost ino: int,
                       ghost d0: seq<Block>, ghost w0: World, ghost c: seq<byte>)
    returns (ok: bool, written: int)
    requires data != [] && 0 <= off && 0 <= node.blocks <= MAX_BLOCKS
    requires Writing(disk.D(), disk.inodeBlocks + 1, disk.freelistHead, disk.w, node.Rec(), ino, off / BLOCK_SIZE,
                     d0, w0, c, Overlay(c, off, data))
    modifies disk.store
    ensures ok && written == Before(node.blocks, off, |data|)
    ensures Writing(disk.D(), disk.inodeBlocks + 1, disk.freelistHead, disk.w, node.Rec(), ino, node.blocks,
                    d0, w0, c, Overlay(c, off, data))
  {
    hide Writing, DataAt, Overlay, HintOk, WorldOk, FileOk;
    var start, end := off / BLOCK_SIZE, (off + |data| - 1) / BLOCK_SIZE;
    ghost var c' := Overlay(c, off, data);
    var prev, complete, i := 0, false, start;
    written := 0;
    WritingFacts(disk.D(), disk.inodeBlocks + 1, disk.freelistHead, disk.w, node.Rec(), ino, i, d0, w0, c, c');
    HintZero(disk.w.files[ino], start);
    while i < node.blocks && !complete
      invariant start <= i && (i <= node.blocks || i == start)
      invariant if complete then i == end + 1 else i <= end
      invariant written == Before(i, off, |data|) && HintOk(disk.w.files[ino], i, prev)
      invariant Writing(disk.D(), disk.inodeBlocks + 1, disk.freelistHead, disk.w, node.Rec(), ino, i, d0, w0, c, c')
      decreases node.blocks - i
    {
      WritingFacts(disk.D(), disk.inodeBlocks + 1, disk.freelistHead, disk.w, node.Rec(), ino, i, d0, w0, c, c');
      var x;
      x, prev := GetDiskBlock(disk, node, ino, i, prev);
      if x <= 0 {
        return false, written;
      }
      ok, written := OverwriteBlock(disk, x, data, off, i, written, node.Rec(), ino, d0, w0, c);
      if !ok {
        return false, written;
      }
      complete := i == end;
      i := i + 1;
    }
    if i < node.blocks {
      WritingSkip(disk.D(), disk.inodeBlocks + 1, disk.freelistHead, disk.w, node.Rec(), ino, i, node.blocks,
                  d0, w0, c, off, data);
    } else {
      WritingAny(disk.D(), disk.inodeBlocks + 1, disk.freelistHead, disk.w, node.Rec(), ino, i, node.blocks, d0, w0, c, c');
    }
    return true, written;
  }

  lemma WrittenPart(c: seq<byte>, off: int, data: seq<byte>, i: int, before: seq<byte>)
    requires 0 <= off && data != [] && off / BLOCK_SIZE <= i <= (off + |data| - 1) / BLOCK_SIZE
    requires IsBlock(before, c, i)
    ensures |before| == BLOCK_SIZE
    ensures 0 <= Before(i, off, |data|) < Before(i + 1, off, |data|) <= |data|
    ensures 0 <= From(i, off)
    ensures From(i, off) + Before(i + 1, off, |data|) - Before(i, off, |data|) <= BLOCK_SIZE
    ensures
      var src := data[Before(i, off, |data|)..Before(i + 1, off, |data|)];
      && IsBlock(Splice(before, From(i, off), src), Overlay(c, off, data), i)
      && (|src| == BLOCK_SIZE ==> Splice(before, From(i, off), src) == src)
  {
    hide Overlay, IsBlock;
    BlockLength(before, c, i);
    BlockPart(off, data, i);
    var src := data[Before(i, off, |data|)..Before(i + 1, off, |data|)];
    WrittenBlock(c, off, data, i, before, From(i, off), src);
  }

  /** The blocks of the file are the same on both disks. */
  ghost predicate SameBlocks(d: seq<Block>, f: FileMap, n: int, d': seq<Block>, f': FileMap) {
    && |d'| == |d| && n <= MAX_BLOCKS
    && forall k :: 0 <= k < n ==>
         DataAt(f', k) == DataAt(f, k) && 0 <= DataAt(f, k) < |d| && d'[DataAt(f, k)] == d[DataAt(f, k)]
  }

  lemma SameHolds(d: seq<Block>, f: FileMap, n: int, d': seq<Block>, f': FileMap, k: int, c: seq<byte>)
    requires SameBlocks(d, f, n, d', f') && 0 <= k < n && BlockHolds(d, f, k, c)
    ensures BlockHolds(d', f', k, c)
  {
    hide IsBlock;
  }

  lemma TakeSame(d: seq<Block>, lo: int, head: int, w: World, rec: InodeRec, ino: int, x: int,
                 d': seq<Block>, head': int, w': World)
    requires InodeOk(d, lo, head, w, rec, ino) && Taken(d, w, d', w', x) && WorldOk(d', lo, head', w')
    ensures InodeOk(d', lo, head', w', rec, ino) && rec.blocks <= MAX_BLOCKS
    ensures SameBlocks(d, w.files[ino], rec.blocks, d', w'.files[ino])
    ensures NumFree(w'.owner) == NumFree(w.owner) - 1
  {
    hide DataAt, Shaped, PointersOk, Region, Start;
    TreesFrame(d, d', w, ino);
    NumFreeStep(w.owner, x, Held);
    forall k | 0 <= k < rec.blocks
      ensures 0 <= DataAt(w.files[ino], k) < |d| && d'[DataAt(w.files[ino], k)] == d[DataAt(w.files[ino], k)]
    {
      DataOwner(d, lo, head, w, rec, ino, k);
    }
  }

  lemma TakeOthers(d: seq<Block>, w: World, ino: int, d0: seq<Block>, w0: World, x: int, d': seq<Block>, w': World)
    requires OthersKept(d0, w0, d, w, ino) && Taken(d, w, d', w', x)
    ensures OthersKept(d0, w0, d', w', ino)
  {
  }

  /** Allocating a block for the file touches no block of any file. */
  lemma TakeKeeps(d: seq<Block>, lo: int, head: int, w: World, rec: InodeRec, ino: int, i: int,
                  d0: seq<Block>, w0: World, c: seq<byte>, c': seq<byte>, x: int, d': seq<Block>, head': int, w': World)
    requires Writing(d, lo, head, w, rec, ino, i, d0, w0, c, c')
    requires Taken(d, w, d', w', x) && WorldOk(d', lo, head', w')
    ensures Writing(d', lo, head', w', rec, ino, i, d0, w0, c, c')
    ensures AppendReady(d', lo, head', w', rec, ino, x) && NumFree(w'.owner) == NumFree(w.owner) - 1
  {
    hide BlockHolds, DataAt, FileOk, WorldOk, SameBlocks, OthersKept, NumFree, SameOutsideFree;
    TakeSame(d, lo, head, w, rec, ino, x, d', head', w');
    TakeOthers(d, w, ino, d0, w0, x, d', w');
    forall k | 0 <= k < rec.blocks && k < i ensures BlockHolds(d', w.files[ino], k, c') {
      SameHolds(d, w.files[ino], rec.blocks, d', w'.files[ino], k, c');
    }
    forall k | 0 <= k < rec.blocks && k >= i ensures BlockHolds(d', w.files[ino], k, c) {
      SameHolds(d, w.files[ino], rec.blocks, d', w'.files[ino], k, c);
    }
  }

  lemma AppendSame(d: seq<Block>, lo: int, head: int, w: World, rec: InodeRec, ino: int, b: int,
                   d': seq<Block>, w': World, rec': InodeRec)
    requires InodeOk(d, lo, head, w, rec, ino) && 0 <= rec.blocks
    requires b in w.owner && w.owner[b] == Held && 0 <= b < |d|
    requires Appended(d, w, rec, d', w', rec', ino, b)
    ensures rec'.blocks == rec.blocks + 1 <= MAX_BLOCKS && |w'.files| == |w.files|
    ensures DataAt(w'.files[ino], rec.blocks) == b && |d'| == |d| && d'[b] == d[b]
    ensures SameBlocks(d, w.files[ino], rec.blocks, d', w'.files[ino])
    ensures FileOk(d', rec', w'.files[ino])
  {
    hide DataAt, FileOk, WorldOk, Region, Start, Grown, Growth, NumFree;
    AppendRefines(d, w, rec, d', w', rec', ino, b);
    forall k | 0 <= k < rec.blocks
      ensures 0 <= DataAt(w.files[ino], k) < |d| && d'[DataAt(w.files[ino], k)] == d[DataAt(w.files[ino], k)]
    {
      DataOwner(d, lo, head, w, rec, ino, k);
    }
  }

  lemma ZeroHolds(d: seq<Block>, f: FileMap, n: int, c: seq<byte>)
    requires 0 <= n < MAX_BLOCKS && 0 <= DataAt(f, n) < |d| && d[DataAt(f, n)] == ZeroBlock()
    requires |c| <= n * BLOCK_SIZE
    ensures BlockHolds(d, f, n, c)
  {
    hide DataAt, IsBlock;
    ZeroBlockBytes();
    ZeroIsBlock(c, n);
  }

  /** Appending the zeroed block `b` to the file: it is block `n` of the old content. */
  lemma AppendKeeps(d: seq<Block>, lo: int, head: int, w: World, rec: InodeRec, ino: int,
                    d0: seq<Block>, w0: World, c: seq<byte>, c': seq<byte>, b: int,
                    d': seq<Block>, head': int, w': World, rec': InodeRec)
    requires Writing(d, lo, head, w, rec, ino, rec.blocks, d0, w0, c, c') && 0 <= rec.blocks
    requires b in w.owner && w.owner[b] == Held && 0 <= b < |d| && d[b] == ZeroBlock()
    requires Appended(d, w, rec, d', w', rec', ino, b) && WorldOk(d', lo, head', w')
    requires |c| <= rec.blocks * BLOCK_SIZE
    ensures Writing(d', lo, head', w', rec', ino, rec.blocks, d0, w0, c, c')
    ensures DataAt(w'.files[ino], rec.blocks) == b && rec'.blocks == rec.blocks + 1
  {
    hide BlockHolds, DataAt, FileOk, WorldOk, SameBlocks, OthersKept, Evolves, Grown, Growth, NumFree;
    var n := rec.blocks;
    AppendSame(d, lo, head, w, rec, ino, b, d', w', rec');
    forall k | 0 <= k < n ensures BlockHolds(d', w'.files[ino], k, c') {
      SameHolds(d, w.files[ino], n, d', w'.files[ino], k, c');
    }
    ZeroHolds(d', w'.files[ino], n, c);
    EvolvesKeeps(d, lo, head, w, d', w', ino, b, d0, w0);
  }

  lemma EvolvesKeeps(d: seq<Block>, lo: int, head: int, w: World, d': seq<Block>, w': World, ino: int, b: int,
                     d0: seq<Block>, w0: World)
    requires WorldOk(d, lo, head, w) && 0 <= ino < |w.files| && Evolves(d, w, d', w', ino, b)
    requires b in w.owner && w.owner[b] == Held && OthersKept(d0, w0, d, w, ino)
    ensures OthersKept(d0, w0, d', w', ino)
  {
  }

  /** The blocks that the inode has hold the bytes `c`.  Index blocks of an append that failed
      may be left over, but the record leads to them. */
  ghost predicate Leftover(d: seq<Block>, lo: int, head: int, w: World, rec: InodeRec, ino: int, c: seq<byte>) {
    && WorldOk(d, lo, head, w) && 0 <= ino < |w.files| && 0 <= rec.blocks <= MAX_BLOCKS
    && Rooted(rec, w.files[ino]) && TreesOk(d, w.files[ino])
    && forall k :: 0 <= k < rec.blocks ==> BlockHolds(d, w.files[ino], k, c)
  }

  lemma WritingLeftover(d: seq<Block>, lo: int, head: int, w: World, rec: InodeRec, ino: int,
                        d0: seq<Block>, w0: World, c: seq<byte>, c': seq<byte>)
    requires Writing(d, lo, head, w, rec, ino, rec.blocks, d0, w0, c, c')
    ensures Leftover(d, lo, head, w, rec, ino, c')
  {
    hide FileOk, WorldOk, BlockHolds, OthersKept, Rooted, TreesOk;
    WritingFacts(d, lo, head, w, rec, ino, rec.blocks, d0, w0, c, c');
    FileRooted(d, rec, w.files[ino]);
  }

  /** An append that fails touches no data block of the file. */
  lemma FailedKeeps(d: seq<Block>, lo: int, head: int, w: World, rec: InodeRec, ino: int,
                    d0: seq<Block>, w0: World, c: seq<byte>, c': seq<byte>, b: int,
                    d': seq<Block>, head': int, w': World, rec': InodeRec)
    requires Writing(d, lo, head, w, rec, ino, rec.blocks, d0, w0, c, c') && 0 <= rec.blocks
    requires b in w.owner && w.owner[b] == Held && WorldOk(d', lo, head', w')
    requires AppendFailed(d, w, rec, d', w', rec', ino, b)
    ensures Leftover(d', lo, head', w', rec', ino, c') && rec'.blocks == rec.blocks
  {
    hide FileOk, WorldOk, OthersKept, Rooted, TreesOk, IsBlock, DataAt, NumFree, Growth, IndexSize, Region, Start;
    WritingFacts(d, lo, head, w, rec, ino, rec.blocks, d0, w0, c, c');
    EvolvesSize(d, w, d', w', ino, b);
    forall k | 0 <= k < rec.blocks ensures BlockHolds(d', w'.files[ino], k, c') {
      DataOwner(d, lo, head, w, rec, ino, k);
      SameData(w.files[ino], w'.files[ino], k);
      assert BlockHolds(d, w.files[ino], k, c');
    }
  }

  lemma SameData(f: FileMap, f': FileMap, k: int)
    requires 0 <= k < MAX_BLOCKS && forall r :: 0 <= r < 4 ==> f'[r][0] == f[r][0]
    ensures DataAt(f', k) == DataAt(f, k)
  {
  }

  /** Allocates a zeroed block and appends it to the file.  It fails exactly when
      the file is full or the free blocks do not suffice. */
  method AppendBlock(disk: Disk, node: Inode, ghost ino: int, ghost d0: seq<Block>, ghost w0: World,
                     ghost c: seq<byte>, ghost c': seq<byte>)
    returns (ok: bool, x: int)
    requires 0 <= node.blocks && |c| <= node.blocks * BLOCK_SIZE
    requires Writing(disk.D(), disk.inodeBlocks + 1, disk.freelistHead, disk.w, node.Rec(), ino, node.blocks, d0, w0, c, c')
    modifies disk`freelistHead, disk`w, disk.store, node
    ensures disk.Sound() && OthersKept(d0, w0, disk.D(), disk.w, ino) && SameAttributes(old(node.Rec()), node.Rec())
    ensures ok <==>
      old(node.blocks) < MAX_BLOCKS && old(NumFree(disk.w.owner)) >= 1 + Growth(old(node.blocks))
    ensures !ok ==>
      && node.blocks == old(node.blocks)
      && Leftover(disk.D(), disk.inodeBlocks + 1, disk.freelistHead, disk.w, node.Rec(), ino, c')
    ensures ok ==>
      && node.blocks == old(node.blocks) + 1
      && x == DataAt(disk.w.files[ino], old(node.blocks))
      && Writing(disk.D(), disk.inodeBlocks + 1, disk.freelistHead, disk.w, node.Rec(), ino, old(node.blocks), d0, w0, c, c')
      && NumFree(disk.w.owner) == old(NumFree(disk.w.owner)) - 1 - Growth(old(node.blocks))
  {
    hide Writing, WorldOk, NumFree, OthersKept, FileOk, Evolves, DataAt, Leftover, Rooted, TreesOk, OneMore, IndexSize;
    ghost var lo, d, head, w, rec := disk.inodeBlocks + 1, disk.D(), disk.freelistHead, disk.w, node.Rec();
    WritingOthers(d, lo, head, w, rec, ino, rec.blocks, d0, w0, c, c');
    HeadOf(d, lo, head, w);
    GrowthNatural(node.blocks);
    x := disk.AllocateDataBlock();
    if x <= 0 {
      AllocateRange(d, lo, head, w);
      WritingLeftover(d, lo, head, w, rec, ino, d0, w0, c, c');
      return false, x;
    }
    ghost var d1, head1, w1 := disk.D(), disk.freelistHead, disk.w;
    AllocateRange(d, lo, head, w);
    TakeKeeps(d, lo, head, w, rec, ino, rec.blocks, d0, w0, c, c', x, d1, head1, w1);
    ok := AddDatablockToInode(disk, node, ino, x);
    WritingOthers(d1, lo, head1, w1, rec, ino, rec.blocks, d0, w0, c, c');
    EvolvesKeeps(d1, lo, head1, w1, disk.D(), disk.w, ino, x, d0, w0);
    if ok {
      AppendKeeps(d1, lo, head1, w1, rec, ino, d0, w0, c, c', x, disk.D(), disk.freelistHead, disk.w, node.Rec());
    } else {
      FailedKeeps(d1, lo, head1, w1, rec, ino, d0, w0, c, c', x, disk.D(), disk.freelistHead, disk.w, node.Rec());
    }
  }

  lemma WritingOthers(d: seq<Block>, lo: int, head: int, w: World, rec: InodeRec, ino: int, i: int,
                      d0: seq<Block>, w0: World, c: seq<byte>, c': seq<byte>)
    requires Writing(d, lo, head, w, rec, ino, i, d0, w0, c, c')
    ensures WorldOk(d, lo, head, w) && OthersKept(d0, w0, d, w, ino) && 0 <= ino < |w.files|
    ensures 0 <= rec.blocks <= MAX_BLOCKS
  {
  }

  lemma HeadOf(d: seq<Block>, lo: int, head: int, w: World)
    requires WorldOk(d, lo, head, w)
    ensures head == 0 <==> NumFree(w.owner) == 0
  {
    EmptyIff(d, head, w.chain, w.owner);
  }

  lemma GrowthNatural(n: int)
    requires 0 <= n
    ensures n < MAX_BLOCKS ==> Growth(n) >= 0
  {
    IndexMonotone(n, n + 1);
  }

  lemma AllocateRange(d: seq<Block>, lo: int, head: int, w: World)
    requires WorldOk(d, lo, head, w)
    ensures head != 0 ==> 0 < Allocate(d, head).result < |d|
  {
    if head != 0 {
      AllocateOk(d, lo, head, w);
    }
  }
}
