/** Directories on the disk: finding, adding and removing entries. */
module Directory {
  import opened Blocks
  import opened Ownership
  import opened FreeList
  import opened BlockMap
  import opened Attaching
  import opened Disk
  import opened Lookup
  import opened Append
  import opened Files
  import opened Records
  import opened Listings

  ghost predicate DirBlock(d: seq<Block>, f: FileMap, k: int, rs: seq<Record>)
    requires 0 <= k < MAX_BLOCKS
  {
    0 <= DataAt(f, k) < |d| && Packed(BytesOf(d[DataAt(f, k)]), rs)
  }

  /** The blocks of the inode hold the records `dirs`, block by block. */
  ghost predicate DirBlocks(d: seq<Block>, f: FileMap, dirs: seq<seq<Record>>) {
    |dirs| <= MAX_BLOCKS && forall k :: 0 <= k < |dirs| ==> DirBlock(d, f, k, dirs[k])
  }

  /** The inode is a directory with these records, whole blocks long, and counts them. */
  ghost predicate DirOk(d: seq<Block>, rec: InodeRec, f: FileMap, dirs: seq<seq<Record>>) {
    && rec.isDir && rec.blocks == |dirs| && rec.size == rec.blocks * BLOCK_SIZE
    && rec.children == |Entries(dirs)| && DirBlocks(d, f, dirs)
  }

  lemma DirBlockAt(d: seq<Block>, lo: int, head: int, w: World, rec: InodeRec, ino: int, dirs: seq<seq<Record>>, k: int)
    requires InodeOk(d, lo, head, w, rec, ino) && DirBlocks(d, w.files[ino], dirs) && rec.blocks == |dirs|
    requires 0 <= k < |dirs|
    ensures
      var x := DataAt(w.files[ino], k);
      lo <= x < |d| && Packed(BytesOf(d[x]), dirs[k])
  {
    DataOwner(d, lo, head, w, rec, ino, k);
    assert DirBlock(d, w.files[ino], k, dirs[k]);
  }

  lemma ShortNames(d: seq<Block>, f: FileMap, dirs: seq<seq<Record>>, name: seq<byte>)
    requires DirBlocks(d, f, dirs) && |name| > MAX_FILE_NAME_LENGTH
    ensures FindBlock(dirs, name) == |dirs|
  {
    forall k | 0 <= k < |dirs| ensures Find(dirs[k], name) == |dirs[k]| {
      assert DirBlock(d, f, k, dirs[k]);
      forall i | 0 <= i < |dirs[k]| ensures dirs[k][i].name != name {
        assert RecordOk(dirs[k][i]);
      }
    }
  }

  /** The place of the first record with the name: the offset in its block (or -1), the
      contents of the block and its number. */
  method GetFilePositionInDir(disk: Disk, name: seq<byte>, node: Inode, ghost ino: int, ghost dirs: seq<seq<Record>>)
    returns (offset: int, block: seq<byte>, p: int)
    requires InodeOk(disk.D(), disk.inodeBlocks + 1, disk.freelistHead, disk.w, node.Rec(), ino)
    requires node.isDir ==> DirOk(disk.D(), node.Rec(), disk.w.files[ino], dirs)
    ensures !node.isDir ==> offset == -1
    ensures node.isDir ==>
      var k := FindBlock(dirs, name);
      && (k == |dirs| ==> offset == -1)
      && (k < |dirs| ==>
            && p == DataAt(disk.w.files[ino], k) && disk.inodeBlocks < p < disk.store.Length
            && block == BytesOf(disk.D()[p])
            && Packed(block, dirs[k]) && offset == |Pack(dirs[k][..Find(dirs[k], name)])|)
  {
    hide WorldOk, FileOk, DirBlocks, Packed, DataAt, HintOk, Pack, Entries;
    offset, block, p := -1, [], -1;
    if !node.isDir {
      return;
    }
    if |name| > MAX_FILE_NAME_LENGTH {
      ShortNames(disk.D(), disk.w.files[ino], dirs, name);
      return;
    }
    var prev := 0;
    HintZero(disk.w.files[ino], 0);
    WithinMax(disk.D(), disk.w.files[ino], dirs);
    for l := 0 to node.blocks
      invariant forall j :: 0 <= j < l ==> Find(dirs[j], name) == |dirs[j]|
      invariant HintOk(disk.w.files[ino], l, prev) && offset == -1
    {
      p, prev := GetDiskBlock(disk, node, ino, l, prev);
      if p <= 0 {
        return;
      }
      DirBlockAt(disk.D(), disk.inodeBlocks + 1, disk.freelistHead, disk.w, node.Rec(), ino, dirs, l);
      var _, b := disk.ReadDataBlock(p);
      block := BytesOf(b);
      offset := ScanForName(block, name, dirs[l]);
      if offset != -1 {
        FindBlockIs(dirs, name, l);
        return;
      }
    }
    FindBlockIs(dirs, name, |dirs|);
  }

  lemma WithinMax(d: seq<Block>, f: FileMap, dirs: seq<seq<Record>>)
    requires DirBlocks(d, f, dirs)
    ensures |dirs| <= MAX_BLOCKS
  {
  }

  /** Rewriting block `k` of a directory. */
  lemma DirWrite(d: seq<Block>, lo: int, head: int, w: World, rec: InodeRec, ino: int, dirs: seq<seq<Record>>,
                 k: int, buf: seq<byte>, rs: seq<Record>)
    requires InodeOk(d, lo, head, w, rec, ino) && DirBlocks(d, w.files[ino], dirs) && rec.blocks == |dirs|
    requires 0 <= k < |dirs| && |buf| == BLOCK_SIZE && Packed(buf, rs)
    ensures
      var x := DataAt(w.files[ino], k);
      var d' := d[x := BlockOf(buf)];
      && lo <= x < |d| && InodeOk(d', lo, head, w, rec, ino) && OthersKept(d, w, d', w, ino)
      && DirBlocks(d', w.files[ino], dirs[k := rs])
  {
    hide WorldOk, FileOk, Packed, DataAt, Region;
    var x := DataAt(w.files[ino], k);
    DataWrite(d, lo, head, w, rec, ino, k, BlockOf(buf));
    BytesRoundTrip(buf);
    var d' := d[x := BlockOf(buf)];
    var dirs' := dirs[k := rs];
    forall j | 0 <= j < |dirs| ensures DirBlock(d', w.files[ino], j, dirs'[j]) {
      assert DirBlock(d, w.files[ino], j, dirs[j]);
      assert j != k ==> DataAt(w.files[ino], j) != x;
    }
    OwnersInside(d, lo, head, w);
  }

  lemma OwnersInside(d: seq<Block>, lo: int, head: int, w: World)
    requires WorldOk(d, lo, head, w)
    ensures forall x :: x in w.owner ==> 0 < lo <= x < |d|
  {
  }

  /** What adding or removing an entry leaves of the rest of the inode. */
  predicate DirAttributes(rec: InodeRec, rec': InodeRec) {
    SameAttributes(rec.(size := rec'.size, children := rec'.children), rec')
  }

  /** Takes the first record with the name out of its block; the records behind it move up. */
  method RemoveDirectoryEntry(disk: Disk, node: Inode, name: seq<byte>, ghost ino: int, ghost dirs: seq<seq<Record>>)
    returns (ok: bool)
    requires InodeOk(disk.D(), disk.inodeBlocks + 1, disk.freelistHead, disk.w, node.Rec(), ino)
    requires node.isDir ==> DirOk(disk.D(), node.Rec(), disk.w.files[ino], dirs)
    modifies disk.store, node
    ensures ok == (old(node.isDir) && LookupIn(Entries(dirs), name).Some?)
    ensures InodeOk(disk.D(), disk.inodeBlocks + 1, disk.freelistHead, disk.w, node.Rec(), ino)
    ensures OthersKept(old(disk.D()), disk.w, disk.D(), disk.w, ino)
    ensures node.Rec() == old(node.Rec()).(children := if ok then old(node.children) - 1 else old(node.children))
    ensures ok ==> DirOk(disk.D(), node.Rec(), disk.w.files[ino], Removed(dirs, name))
    ensures !ok ==> disk.D() == old(disk.D()) && node.Rec() == old(node.Rec())
  {
    hide WorldOk, FileOk, DirBlocks, Packed, DataAt, Pack, Entries, OthersKept, ReadLength, LookupIn, Compact;
    ghost var d0, rec0, lo, head := disk.D(), node.Rec(), disk.inodeBlocks + 1, disk.freelistHead;
    SearchRefines(dirs, name);
    NoChange(d0, lo, head, disk.w, ino);
    var offset, block, p := GetFilePositionInDir(disk, name, node, ino, dirs);
    ghost var k := FindBlock(dirs, name);
    if offset == -1 {
      return false;
    }
    CompactOk(block, dirs[k], Find(dirs[k], name));
    DirWrite(d0, lo, head, disk.w, node.Rec(), ino, dirs, k, Compact(block, offset), Without(dirs[k], Find(dirs[k], name)));
    RemoveFinds(dirs, name, name);
    var _ := disk.WriteDataBlock(p, BlockOf(Compact(block, offset)));
    ChildrenFree(disk.D(), node.Rec(), disk.w.files[ino], node.children - 1);
    node.children := node.children - 1;
    return true;
  }

  lemma ChildrenFree(d: seq<Block>, rec: InodeRec, f: FileMap, children: int)
    requires FileOk(d, rec, f)
    ensures FileOk(d, rec.(children := children), f)
  {
    hide Shaped, TreesOk;
  }

  /** Writing a block that no inode has yet. */
  lemma HeldWrite(d: seq<Block>, lo: int, head: int, w: World, rec: InodeRec, ino: int, dirs: seq<seq<Record>>,
                  x: int, b: Block, d0: seq<Block>, w0: World)
    requires InodeOk(d, lo, head, w, rec, ino) && DirBlocks(d, w.files[ino], dirs) && rec.blocks == |dirs|
    requires x in w.owner && w.owner[x] == Held && OthersKept(d0, w0, d, w, ino)
    ensures lo <= x < |d|
    ensures
      var d' := d[x := b];
      InodeOk(d', lo, head, w, rec, ino) && DirBlocks(d', w.files[ino], dirs) && OthersKept(d0, w0, d', w, ino)
  {
    hide DataAt, Shaped, PointersOk, Packed, Region, Start;
    var d' := d[x := b];
    FreeListFrame(d, head, w.chain, w.owner, d', w.owner);
    TreesFrame(d, d', w, ino);
    forall k | 0 <= k < |dirs| ensures DirBlock(d', w.files[ino], k, dirs[k]) {
      DataOwner(d, lo, head, w, rec, ino, k);
      assert DirBlock(d, w.files[ino], k, dirs[k]);
    }
  }

  lemma DirTake(d: seq<Block>, lo: int, head: int, w: World, rec: InodeRec, ino: int, dirs: seq<seq<Record>>,
                x: int, d': seq<Block>, head': int, w': World)
    requires InodeOk(d, lo, head, w, rec, ino) && DirBlocks(d, w.files[ino], dirs) && rec.blocks == |dirs|
    requires Taken(d, w, d', w', x) && WorldOk(d', lo, head', w')
    ensures InodeOk(d', lo, head', w', rec, ino) && DirBlocks(d', w'.files[ino], dirs)
    ensures OthersKept(d, w, d', w', ino) && x in w'.owner && w'.owner[x] == Held
    ensures NumFree(w'.owner) == NumFree(w.owner) - 1
  {
    hide DataAt, Packed, WorldOk, FileOk, NumFree, OthersKept, SameOutsideFree;
    TakeSame(d, lo, head, w, rec, ino, x, d', head', w');
    NoChange(d, lo, head, w, ino);
    TakeOthers(d, w, ino, d, w, x, d', w');
    SameDirs(d, w.files[ino], d', w'.files[ino], dirs);
  }

  lemma SameDirs(d: seq<Block>, f: FileMap, d': seq<Block>, f': FileMap, dirs: seq<seq<Record>>)
    requires SameBlocks(d, f, |dirs|, d', f') && DirBlocks(d, f, dirs)
    ensures DirBlocks(d', f', dirs)
  {
    hide DataAt, Packed;
    forall k | 0 <= k < |dirs| ensures DirBlock(d', f', k, dirs[k]) {
      assert DirBlock(d, f, k, dirs[k]);
    }
  }

  /** Attaching the block `x` that holds the records `rs`. */
  lemma DirAppend(d: seq<Block>, lo: int, head: int, w: World, rec: InodeRec, ino: int, dirs: seq<seq<Record>>,
                  x: int, rs: seq<Record>, d': seq<Block>, w': World, rec': InodeRec)
    requires InodeOk(d, lo, head, w, rec, ino) && DirBlocks(d, w.files[ino], dirs) && rec.blocks == |dirs|
    requires x in w.owner && w.owner[x] == Held && 0 <= x < |d| && Packed(BytesOf(d[x]), rs)
    requires Appended(d, w, rec, d', w', rec', ino, x)
    ensures |w'.files| == |w.files| && rec'.blocks == |dirs| + 1 && FileOk(d', rec', w'.files[ino])
    ensures DirBlocks(d', w'.files[ino], dirs + [rs]) && NumFree(w.owner) == NumFree(w'.owner) + Growth(|dirs|)
  {
    hide DataAt, Packed, WorldOk, FileOk, Evolves, Grown, Growth, NumFree;
    AppendSame(d, lo, head, w, rec, ino, x, d', w', rec');
    SameDirs(d, w.files[ino], d', w'.files[ino], dirs);
    var dirs' := dirs + [rs];
    forall k | 0 <= k < |dirs'| ensures DirBlock(d', w'.files[ino], k, dirs'[k]) {
      assert k < |dirs| ==> DirBlock(d', w'.files[ino], k, dirs[k]);
    }
  }

  /** Failing to attach a block leaves the records of the directory alone. */
  lemma DirFailed(d: seq<Block>, lo: int, head: int, w: World, rec: InodeRec, ino: int, dirs: seq<seq<Record>>,
                  x: int, d': seq<Block>, w': World, rec': InodeRec)
    requires InodeOk(d, lo, head, w, rec, ino) && DirBlocks(d, w.files[ino], dirs) && 0 <= rec.blocks == |dirs|
    requires x in w.owner && w.owner[x] == Held && AppendFailed(d, w, rec, d', w', rec', ino, x)
    ensures |w'.files| == |w.files| && rec'.blocks == rec.blocks && DirBlocks(d', w'.files[ino], dirs)
  {
    hide WorldOk, FileOk, Packed, Rooted, TreesOk, DataAt, NumFree, Growth, IndexSize, Region, Start;
    EvolvesSize(d, w, d', w', ino, x);
    forall k | 0 <= k < |dirs| ensures DirBlock(d', w'.files[ino], k, dirs[k]) {
      DataOwner(d, lo, head, w, rec, ino, k);
      SameData(w.files[ino], w'.files[ino], k);
      assert DirBlock(d, w.files[ino], k, dirs[k]);
    }
  }

  lemma NewRecord(r: Record)
    requires RecordOk(r)
    ensures Packed(PutRecord(Zeros(BLOCK_SIZE), 0, r), [r])
  {
    hide PutRecord, Encode;
    EmptyPacked();
    PutRecordOk(Zeros(BLOCK_SIZE), [], r);
    assert [] + [r] == [r];
  }

  /** Appends a new block with the record to the directory. */
  method AddInNewBlock(disk: Disk, node: Inode, r: Record, ghost ino: int, ghost dirs: seq<seq<Record>>) returns (ok: bool)
    requires InodeOk(disk.D(), disk.inodeBlocks + 1, disk.freelistHead, disk.w, node.Rec(), ino)
    requires DirOk(disk.D(), node.Rec(), disk.w.files[ino], dirs) && RecordOk(r)
    modifies disk`freelistHead, disk`w, disk.store, node
    ensures disk.Sound() && OthersKept(old(disk.D()), old(disk.w), disk.D(), disk.w, ino)
    ensures DirAttributes(old(node.Rec()), node.Rec())
    ensures ok <==> |dirs| < MAX_BLOCKS && old(NumFree(disk.w.owner)) >= 1 + Growth(|dirs|)
    ensures !ok ==> 0 <= ino < |disk.w.files| && DirOk(disk.D(), node.Rec(), disk.w.files[ino], dirs)
    ensures ok ==> NumFree(disk.w.owner) == old(NumFree(disk.w.owner)) - 1 - Growth(|dirs|)
    ensures old(NumFree(disk.w.owner)) == 0 ==>
      disk.D() == old(disk.D()) && disk.w == old(disk.w) && disk.freelistHead == old(disk.freelistHead)
      && node.Rec() == old(node.Rec())
    ensures ok ==>
      && InodeOk(disk.D(), disk.inodeBlocks + 1, disk.freelistHead, disk.w, node.Rec(), ino)
      && DirBlocks(disk.D(), disk.w.files[ino], dirs + [[r]])
      && node.blocks == |dirs| + 1 && node.size == node.blocks * BLOCK_SIZE && node.children == |Entries(dirs)| + 1
  {
    hide WorldOk, FileOk, DirBlocks, Packed, NumFree, OthersKept, Entries, Growth, PutRecord, Appended,
         AppendFailed, SameOutsideFree, Allocate;
    ghost var d0, head0, w0, lo := disk.D(), disk.freelistHead, disk.w, disk.inodeBlocks + 1;
    HeadOf(d0, lo, head0, w0);
    NoChange(d0, lo, head0, w0, ino);
    AllocateRange(d0, lo, head0, w0);
    WithinMax(d0, w0.files[ino], dirs);
    GrowthNatural(|dirs|);
    var x := disk.AllocateDataBlock();
    if x <= 0 {
      return false;
    }
    ghost var d1, head1, w1 := disk.D(), disk.freelistHead, disk.w;
    DirTake(d0, lo, head0, w0, node.Rec(), ino, dirs, x, d1, head1, w1);
    var block := BlockOf(PutRecord(Zeros(BLOCK_SIZE), 0, r));
    NewRecord(r);
    BytesRoundTrip(PutRecord(Zeros(BLOCK_SIZE), 0, r));
    HeldWrite(d1, lo, head1, w1, node.Rec(), ino, dirs, x, block, d0, w0);
    ok := disk.WriteDataBlock(x, block);
    if !ok {
      return false;
    }
    ghost var d2, rec2 := disk.D(), node.Rec();
    ok := AddDatablockToInode(disk, node, ino, x);
    AppendOthers(d2, lo, head1, w1, rec2, disk.D(), disk.w, node.Rec(), ino, x, ok, d0, w0);
    if ok {
      DirAppend(d2, lo, head1, w1, rec2, ino, dirs, x, [r], disk.D(), disk.w, node.Rec());
      EntryFree(disk.D(), node.Rec(), disk.w.files[ino], node.size + BLOCK_SIZE, node.children + 1);
      node.size := node.size + BLOCK_SIZE;
      node.children := node.children + 1;
    } else {
      DirFailed(d2, lo, head1, w1, rec2, ino, dirs, x, disk.D(), disk.w, node.Rec());
    }
  }

  /** Appending, whether it succeeds or not, keeps the other inodes and the attributes. */
  lemma AppendOthers(d: seq<Block>, lo: int, head: int, w: World, rec: InodeRec, d': seq<Block>, w': World, rec': InodeRec,
                     ino: int, b: int, ok: bool, d0: seq<Block>, w0: World)
    requires WorldOk(d, lo, head, w) && 0 <= ino < |w.files| && 0 <= rec.blocks
    requires b in w.owner && w.owner[b] == Held && OthersKept(d0, w0, d, w, ino)
    requires if ok then Appended(d, w, rec, d', w', rec', ino, b) else AppendFailed(d, w, rec, d', w', rec', ino, b)
    ensures OthersKept(d0, w0, d', w', ino) && SameAttributes(rec, rec') && |w'.files| == |w.files|
    ensures ok ==> FileOk(d', rec', w'.files[ino])
  {
    hide WorldOk, FileOk, OthersKept, Grown, Growth, NumFree;
    EvolvesKeeps(d, lo, head, w, d', w', ino, b, d0, w0);
  }

  lemma EntryFree(d: seq<Block>, rec: InodeRec, f: FileMap, size: int, children: int)
    requires FileOk(d, rec, f)
    ensures FileOk(d, rec.(size := size, children := children), f)
  {
    hide Shaped, TreesOk;
  }

  /** Whether a record for the name has room in the directory, or in a new block for which
      `free` blocks are enough. */
  predicate EntryFits(dirs: seq<seq<Record>>, name: seq<byte>, free: int) {
    && |name| <= MAX_FILE_NAME_LENGTH
    && (RoomIn(dirs, Size(Record(0, name))) < |dirs| || (|dirs| < MAX_BLOCKS && free >= 1 + Growth(|dirs|)))
  }

  /** A name of up to 255 bytes is entered once blocks are free; a longer one never. */
  lemma NameLimit(dirs: seq<seq<Record>>, name: seq<byte>, free: int)
    ensures |name| <= 255 && |dirs| < MAX_BLOCKS && free >= 1 + Growth(|dirs|) ==> EntryFits(dirs, name, free)
    ensures |name| <= 255 && free >= 1 ==> EntryFits([], name, free)
    ensures |name| > 255 ==> !EntryFits(dirs, name, free)
  {
    hide IndexBlocks;
    IndexBlocksClosed(0);
    IndexBlocksClosed(1);
  }

  /** The blocks that the record takes: none, or a data block and the index blocks over it. */
  function EntryCost(dirs: seq<seq<Record>>, name: seq<byte>): int {
    if RoomIn(dirs, Size(Record(0, name))) < |dirs| then 0 else 1 + Growth(|dirs|)
  }

  /** Adds a record for the name: in the first block with room, or in a new block. */
  method AddDirectoryEntry(disk: Disk, node: Inode, inum: int, name: seq<byte>, ghost ino: int, ghost dirs: seq<seq<Record>>)
    returns (ok: bool)
    requires InodeOk(disk.D(), disk.inodeBlocks + 1, disk.freelistHead, disk.w, node.Rec(), ino)
    requires node.isDir ==> DirOk(disk.D(), node.Rec(), disk.w.files[ino], dirs)
    requires CString(name) && -TWO63 <= inum < TWO63
    modifies disk`freelistHead, disk`w, disk.store, node
    ensures disk.Sound() && OthersKept(old(disk.D()), old(disk.w), disk.D(), disk.w, ino)
    ensures DirAttributes(old(node.Rec()), node.Rec())
    ensures ok <==> old(node.isDir) && EntryFits(dirs, name, old(NumFree(disk.w.owner)))
    ensures ok ==> NumFree(disk.w.owner) == old(NumFree(disk.w.owner)) - EntryCost(dirs, name)
    ensures !ok && (!old(node.isDir) || |name| > MAX_FILE_NAME_LENGTH || old(NumFree(disk.w.owner)) == 0) ==>
      disk.D() == old(disk.D()) && disk.w == old(disk.w) && disk.freelistHead == old(disk.freelistHead)
      && node.Rec() == old(node.Rec())
    ensures !ok && old(node.isDir) ==>
      0 <= ino < |disk.w.files| && DirOk(disk.D(), node.Rec(), disk.w.files[ino], dirs)
    ensures ok ==>
      && InodeOk(disk.D(), disk.inodeBlocks + 1, disk.freelistHead, disk.w, node.Rec(), ino)
      && DirOk(disk.D(), node.Rec(), disk.w.files[ino], Added(dirs, Record(inum, name)))
  {
    hide WorldOk, FileOk, DirBlocks, Packed, DataAt, Pack, Entries, OthersKept, NumFree, Growth, PutRecord, HintOk;
    ghost var d0, lo, head := disk.D(), disk.inodeBlocks + 1, disk.freelistHead;
    NoChange(d0, lo, head, disk.w, ino);
    if !node.isDir {
      return false;
    }
    if |name| > MAX_FILE_NAME_LENGTH {
      return false;
    }
    var r := Record(inum, name);
    AddedCount(dirs, r);
    WithinMax(d0, disk.w.files[ino], dirs);
    if node.blocks > 0 {
      var prev := 0;
      HintZero(disk.w.files[ino], 0);
      for l := 0 to node.blocks
        invariant disk.D() == d0 && node.Rec() == old(node.Rec()) && disk.w == old(disk.w) && disk.freelistHead == head
        invariant forall j :: 0 <= j < l ==> !Room(dirs[j], Size(r))
        invariant HintOk(disk.w.files[ino], l, prev)
      {
        var p;
        p, prev := GetDiskBlock(disk, node, ino, l, prev);
        if p <= 0 {
          return false;
        }
        DirBlockAt(d0, lo, head, disk.w, node.Rec(), ino, dirs, l);
        var _, b := disk.ReadDataBlock(p);
        var offset := ScanForRoom(BytesOf(b), |name| + 1, dirs[l]);
        if offset != -1 {
          PutRecordOk(BytesOf(b), dirs[l], r);
          RoomInIs(dirs, Size(r), l);
          DirWrite(d0, lo, head, disk.w, node.Rec(), ino, dirs, l, PutRecord(BytesOf(b), offset, r), dirs[l] + [r]);
          ok := disk.WriteDataBlock(p, BlockOf(PutRecord(BytesOf(b), offset, r)));
          if !ok {
            return false;
          }
          ChildrenFree(disk.D(), node.Rec(), disk.w.files[ino], node.children + 1);
          node.children := node.children + 1;
          return true;
        }
      }
    }
    RoomInIs(dirs, Size(r), |dirs|);
    ok := AddInNewBlock(disk, node, r, ino, dirs);
  }

  lemma RoomInIs(dirs: seq<seq<Record>>, size: int, k: int)
    requires 0 <= k <= |dirs| && (k < |dirs| ==> Room(dirs[k], size)) && forall j :: 0 <= j < k ==> !Room(dirs[j], size)
    ensures RoomIn(dirs, size) == k
  {
  }

  lemma AddedCount(dirs: seq<seq<Record>>, r: Record)
    ensures |Entries(Added(dirs, r))| == |Entries(dirs)| + 1
  {
    hide Entries, Added;
    var i := AddedEntries(dirs, r);
  }

  /** Whether a directory has nothing but its first two entries, "." and "..". */
  method IsEmptyDir(node: Inode, ghost d: seq<Block>, ghost f: FileMap, ghost dirs: seq<seq<Record>>) returns (empty: bool)
    requires DirOk(d, node.Rec(), f, dirs)
    ensures empty <==> |Entries(dirs)| <= 2
  {
    if node.children > 2 {
      return false;
    }
    return true;
  }
}
