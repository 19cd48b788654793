/** The inode table: allocating, reading, writing and freeing inodes. */
module Inodes {
  import opened Blocks
  import opened Ownership
  import opened BlockMap
  import opened Attaching
  import opened Walks
  import opened Cutting
  import opened Releasing
  import opened Disk
  import opened Lookup
  import opened Truncation
  import opened Removal

  /** The inode table, the trees and the free list agree: the file system between calls. */
  ghost predicate FsOk(d: seq<Block>, lo: int, head: int, w: World, inodes: seq<InodeRec>) {
    && WorldOk(d, lo, head, w) && |w.files| == |inodes|
    && forall i :: 0 <= i < |inodes| ==> FileOk(d, inodes[i], w.files[i])
  }

  ghost predicate TableOk(disk: Disk)
    reads disk
  {
    disk.perBlock > 0 && |disk.inodes| == disk.inodeBlocks * disk.perBlock
  }

  /** `s_first_ino` is the smallest free inode number from 3 on, or the inode count. */
  ghost predicate FirstInoOk(inodes: seq<InodeRec>, first: int) {
    && 3 <= first <= |inodes|
    && (forall i :: 3 <= i < first ==> inodes[i].inUse)
    && (first < |inodes| ==> !inodes[first].inUse)
  }

  predicate IsValidInodeNumber(disk: Disk, inum: int)
    reads disk`inodes
  {
    0 <= inum < |disk.inodes|
  }

  /** All blocks of inode `ino` have been freed, each once. */
  ghost predicate Reclaimed(d: seq<Block>, w: World, rec: InodeRec, d': seq<Block>, w': World, ino: int)
    requires 0 <= ino < |w.files|
  {
    && |d'| == |d| && w'.files == w.files[ino := Cut(w.files[ino], 0)] && w'.owner.Keys == w.owner.Keys
    && (forall x :: x in w.owner && Beyond(w.owner[x], ino, 0) ==> w'.owner[x].Free())
    && (forall x :: x in w.owner && !Beyond(w.owner[x], ino, 0) ==> w'.owner[x] == w.owner[x])
    && (forall x :: 0 <= x < |d| && (x in w.owner ==> !w.owner[x].Free() && !Beyond(w.owner[x], ino, 0)) ==>
          d'[x] == d[x])
    && NumFree(w'.owner) == NumFree(w.owner) + rec.blocks + IndexBlocks(rec.blocks)
  }

  lemma ReclaimDone(d: seq<Block>, lo: int, head: int, w: World, rec: InodeRec, ino: int, d': seq<Block>, w': World)
    requires InodeOk(d, lo, head, w, rec, ino)
    requires Released(d, Detach(w, ino, Cut(w.files[ino], 0)), d', w', Doomed(d, w.files[ino], 0, 0))
    ensures Reclaimed(d, w, rec, d', w', ino)
  {
    hide WorldOk, TreesOk, Shaped, Cut, Doomed, PointersOk, IndexBlocks, Beyond, NumFree, FileOk;
    FactsOf(d, lo, head, w, rec, ino);
    DoomedOwned(d, lo, head, w, rec, ino, 0);
    DoomedLength(d, lo, head, w, rec, ino, 0);
    CutReady(d, lo, head, w, rec, ino, 0);
    IndexBlocksClosed(0);
    forall x | x in w.owner && !Beyond(w.owner[x], ino, 0)
      ensures Detach(w, ino, Cut(w.files[ino], 0)).owner[x] == w.owner[x]
    {
      BeyondOwner(d, lo, head, w, rec, ino, 0, x);
    }
  }

  /** Frees the direct blocks up to the first zero. */
  method FreeDirect(disk: Disk, direct: seq<int>, ghost b: seq<Block>, ghost w1: World, ghost t: seq<int>, ghost tail: seq<int>)
    returns (ok: bool)
    requires |direct| == DIRECT && |t| <= DIRECT
    requires forall k :: 0 <= k < DIRECT ==> direct[k] == Entry(t, k)
    requires forall k :: 0 <= k < |t| ==> t[k] != 0
    requires Freeing(disk, b, w1, [], Drop(t, 0) + tail)
    modifies disk`freelistHead, disk`w, disk.store
    ensures ok && Freeing(disk, b, w1, Drop(t, 0), tail)
    ensures t == [] ==> disk.D() == old(disk.D())
  {
    hide Freeing, Drop, Between;
    PartStart(t, 0);
    var i := 0;
    while i < DIRECT
      invariant 0 <= i <= |t|
      invariant Freeing(disk, b, w1, Between(t, 0, i), Drop(t, i) + tail)
      invariant t == [] ==> disk.D() == old(disk.D())
    {
      if direct[i] == 0 {
        break;
      }
      PartNext(t, 0, i, tail);
      ok := FreeNext(disk, direct[i], b, w1, Between(t, 0, i), Drop(t, i + 1) + tail);
      if !ok {
        return false;
      }
      i := i + 1;
    }
    PartEnd(t, 0, tail);
    return true;
  }

  /** Frees the tree of region `r`, if it has one. */
  method FreeRoot(disk: Disk, p: int, r: nat, ghost b: seq<Block>, ghost w1: World, ghost done: seq<int>,
                  ghost f: FileMap, ghost rest: seq<int>)
    returns (ok: bool)
    requires 1 <= r <= 3 && p == Entry(f[r][r], 0) && (f[r][r] != [] ==> f[r][r][0] != 0)
    requires Freeing(disk, b, w1, done, RegionWalk(b, f, r) + rest)
    modifies disk`freelistHead, disk`w, disk.store
    ensures ok && Freeing(disk, b, w1, done + RegionWalk(b, f, r), rest)
    ensures p == 0 ==> disk.D() == old(disk.D())
  {
    hide Freeing, Walk, AllHeld, Distinct, Released, WorldOk;
    ok := true;
    if p != 0 {
      FreeingNext(disk, b, w1, done, RegionWalk(b, f, r), rest);
      FreeingLength(disk, b, w1, done, RegionWalk(b, f, r) + rest);
      WalkFrame(b, disk.D(), p, r);
      ghost var d0, w0, mid := disk.D(), disk.w, Walk(b, p, r);
      FreeingParts(disk, b, w1, done, mid, rest);
      ok := FreeIndirectBlocks(disk, p, r);
      FreeingMore(disk, b, w1, d0, w0, done, mid, rest);
    } else {
      assert done + [] == done && [] + rest == rest;
    }
  }

  lemma FreeingLength(disk: Disk, b: seq<Block>, w1: World, done: seq<int>, rest: seq<int>)
    requires Freeing(disk, b, w1, done, rest)
    ensures |disk.D()| == |b| && disk.Sound()
  {
  }

  lemma FreeingParts(disk: Disk, b: seq<Block>, w1: World, done: seq<int>, mid: seq<int>, rest: seq<int>)
    requires Freeing(disk, b, w1, done, mid + rest)
    ensures AllHeld(w1, done + mid + rest) && Distinct(done + mid + rest)
    ensures AllHeld(w1, done) && Released(b, w1, disk.D(), disk.w, done)
  {
    assert done + (mid + rest) == done + mid + rest;
    FreeingNext(disk, b, w1, done, mid, rest);
  }

  lemma FreeingMore(disk: Disk, b: seq<Block>, w1: World, d0: seq<Block>, w0: World, done: seq<int>, mid: seq<int>, rest: seq<int>)
    requires AllHeld(w1, done + mid + rest) && Distinct(done + mid + rest) && AllHeld(w1, done)
    requires Released(b, w1, d0, w0, done) && Released(d0, w0, disk.D(), disk.w, mid)
    requires disk.Sound() && disk.freelistHead != 0
    ensures Freeing(disk, b, w1, done + mid, rest)
  {
    ReleasedMore(b, w1, d0, w0, done, disk.D(), disk.w, mid);
  }

  lemma RootNonzero(d: seq<Block>, lo: int, head: int, w: World, rec: InodeRec, ino: int)
    requires InodeOk(d, lo, head, w, rec, ino)
    ensures forall r :: 1 <= r < 4 && w.files[ino][r][r] != [] ==> w.files[ino][r][r][0] != 0
    ensures forall k :: 0 <= k < |w.files[ino][0][0]| ==> w.files[ino][0][0][k] != 0
  {
    forall r | 1 <= r < 4 {
      RootPositive(d, lo, head, w, rec, ino, r);
    }
    forall k | 0 <= k < |w.files[ino][0][0]| ensures w.files[ino][0][0][k] != 0 {
      assert w.owner[w.files[ino][0][0][k]] == At(ino, 0, 0, k);
    }
  }

  lemma NoRoots(d: seq<Block>, rec: InodeRec, f: FileMap)
    requires FileOk(d, rec, f)
    ensures rec.blocks == 0 ==> f[0][0] == [] && rec.single == 0 && rec.double == 0 && rec.triple == 0
  {
    hide Need, TreesOk, Cut;
    if rec.blocks == 0 {
      CutAll(f, f);
    }
  }

  /** Frees every data and index block of inode `ino`. */
  method FreeDataBlocksInInode(disk: Disk, rec: InodeRec, ghost ino: int) returns (ok: bool)
    requires InodeOk(disk.D(), disk.inodeBlocks + 1, disk.freelistHead, disk.w, rec, ino)
    requires rec.blocks > 0 ==> disk.freelistHead != 0
    modifies disk`freelistHead, disk`w, disk.store
    ensures ok && disk.Sound()
    ensures Reclaimed(old(disk.D()), old(disk.w), rec, disk.D(), disk.w, ino)
    ensures rec.blocks == 0 ==> disk.D() == old(disk.D())
  {
    hide WorldOk, FileOk, Freeing, RegionWalk, Shaped, Cut, Detach, Reclaimed, NumFree, Doomed, Released;
    ghost var d, w, f, lo, head := disk.D(), disk.w, disk.w.files[ino], disk.inodeBlocks + 1, disk.freelistHead;
    ghost var w1 := Detach(w, ino, Cut(f, 0));
    DirectFacts(d, lo, head, w, rec, ino);
    CutReady(d, lo, head, w, rec, ino, 0);
    RootNonzero(d, lo, head, w, rec, ino);
    NoRoots(d, rec, f);
    DoomedLength(d, lo, head, w, rec, ino, 0);
    disk.w := w1;
    ghost var a, r1, r2, r3 := Drop(f[0][0], 0), RegionWalk(d, f, 1), RegionWalk(d, f, 2), RegionWalk(d, f, 3);
    DoomedParts(d, f, 0);
    FreeingStart(disk, d, w1, Doomed(d, f, 0, 0));
    ok := FreeDirect(disk, rec.direct, d, w1, f[0][0], r1 + (r2 + r3));
    if !ok {
      return false;
    }
    ok := FreeRoot(disk, rec.single, 1, d, w1, a, f, r2 + r3);
    if !ok {
      return false;
    }
    ok := FreeRoot(disk, rec.double, 2, d, w1, a + r1, f, r3);
    if !ok {
      return false;
    }
    assert r3 + [] == r3;
    ok := FreeRoot(disk, rec.triple, 3, d, w1, a + r1 + r2, f, []);
    if !ok {
      return false;
    }
    FreeingDone(disk, d, w1, Doomed(d, f, 0, 0));
    ReclaimDone(d, lo, head, w, rec, ino, disk.D(), disk.w);
  }

  /** The first inode number in inode block `b`. */
  function BlockBase(perBlock: int, b: int): int {
    (b - 1) * perBlock
  }

  lemma BlockBaseNext(perBlock: int, b: int)
    ensures BlockBase(perBlock, b + 1) == BlockBase(perBlock, b) + perBlock
  {
  }

  lemma BlockInTable(inodeBlocks: nat, perBlock: nat, b: int)
    requires 1 <= b <= inodeBlocks
    ensures 0 <= BlockBase(perBlock, b) <= BlockBase(perBlock, b) + perBlock <= inodeBlocks * perBlock
  {
    assert (b - 1) * perBlock + perBlock == b * perBlock;
    assert (inodeBlocks - b) * perBlock >= 0;
    assert b * perBlock + (inodeBlocks - b) * perBlock == inodeBlocks * perBlock;
  }

  method ReadInodeBlock(disk: Disk, b: int) returns (ok: bool, nodes: seq<InodeRec>)
    requires TableOk(disk)
    ensures ok == (1 <= b <= disk.inodeBlocks)
    ensures ok ==>
      var k := BlockBase(disk.perBlock, b);
      0 <= k && k + disk.perBlock <= |disk.inodes| && nodes == disk.inodes[k..k + disk.perBlock]
  {
    if b < 1 || b > disk.inodeBlocks {
      return false, [];
    }
    BlockInTable(disk.inodeBlocks, disk.perBlock, b);
    var k := BlockBase(disk.perBlock, b);
    return true, disk.inodes[k..k + disk.perBlock];
  }

  /** Writes the inode block `b` back, with inode `offset` of it changed. */
  method WriteInodeBlock(disk: Disk, b: int, nodes: seq<InodeRec>, ghost offset: int, ghost rec: InodeRec)
    requires TableOk(disk) && 1 <= b <= disk.inodeBlocks && 0 <= offset < disk.perBlock
    requires
      var k := BlockBase(disk.perBlock, b);
      && 0 <= k && k + disk.perBlock <= |disk.inodes|
      && nodes == disk.inodes[k..k + disk.perBlock][offset := rec]
    modifies disk`inodes
    ensures disk.inodes == old(disk.inodes)[BlockBase(disk.perBlock, b) + offset := rec]
  {
    var k := BlockBase(disk.perBlock, b);
    disk.inodes := disk.inodes[..k] + nodes + disk.inodes[k + disk.perBlock..];
  }

  /** The inode block and the offset in it of inode `inum`. */
  method InumToBlockPos(disk: Disk, inum: int) returns (b: int, offset: int)
    requires TableOk(disk) && 0 <= inum < |disk.inodes|
    ensures 1 <= b <= disk.inodeBlocks && 0 <= offset < disk.perBlock
    ensures BlockBase(disk.perBlock, b) + offset == inum
  {
    b := 1 + inum / disk.perBlock;
    offset := inum % disk.perBlock;
    InumBlock(disk.inodeBlocks, disk.perBlock, inum);
  }

  lemma InumBlock(inodeBlocks: nat, perBlock: nat, inum: int)
    requires perBlock > 0 && 0 <= inum < inodeBlocks * perBlock
    ensures inum / perBlock < inodeBlocks
    ensures inum / perBlock * perBlock + inum % perBlock == inum
  {
  }

  method GetInode(disk: Disk, inum: int) returns (node: Inode?)
    requires TableOk(disk)
    ensures (node == null) == !(0 <= inum < |disk.inodes|)
    ensures node != null ==> fresh(node) && node.Rec() == disk.inodes[inum]
  {
    if !IsValidInodeNumber(disk, inum) {
      return null;
    }
    var b, offset := InumToBlockPos(disk, inum);
    var ok, nodes := ReadInodeBlock(disk, b);
    node := new Inode(nodes[offset]);
  }

  method WriteInode(disk: Disk, inum: int, node: Inode) returns (ok: bool)
    requires TableOk(disk)
    modifies disk`inodes
    ensures ok == (0 <= inum < |old(disk.inodes)|)
    ensures disk.inodes == if ok then old(disk.inodes)[inum := node.Rec()] else old(disk.inodes)
  {
    if !IsValidInodeNumber(disk, inum) {
      return false;
    }
    var b, offset := InumToBlockPos(disk, inum);
    var _, nodes := ReadInodeBlock(disk, b);
    WriteInodeBlock(disk, b, nodes[offset := node.Rec()], offset, node.Rec());
    return true;
  }

  /** Allocates the smallest free inode number and finds the next one, block by block. */
  method AllocateInode(disk: Disk) returns (inum: int)
    requires TableOk(disk) && FirstInoOk(disk.inodes, disk.firstIno)
    modifies disk`inodes, disk`firstIno
    ensures TableOk(disk) && FirstInoOk(disk.inodes, disk.firstIno)
    ensures inum == -1 <==> forall i :: 3 <= i < |old(disk.inodes)| ==> old(disk.inodes)[i].inUse
    ensures inum == -1 ==> disk.inodes == old(disk.inodes)
    ensures inum != -1 ==>
      && 3 <= inum < |old(disk.inodes)| && !old(disk.inodes)[inum].inUse
      && (forall i :: 3 <= i < inum ==> old(disk.inodes)[i].inUse)
      && disk.inodes == old(disk.inodes)[inum := old(disk.inodes)[inum].(inUse := true, links := 0)]
  {
    inum := disk.firstIno;
    if inum == |disk.inodes| {
      return -1;
    }
    if !IsValidInodeNumber(disk, inum) {
      return -1;
    }
    var b, offset := InumToBlockPos(disk, inum);
    var _, nodes := ReadInodeBlock(disk, b);
    if nodes[offset].inUse {
      return -1;
    }
    var rec := nodes[offset].(inUse := true, links := 0);
    nodes := nodes[offset := rec];
    WriteInodeBlock(disk, b, nodes, offset, rec);
    disk.firstIno := SearchFree(disk, inum, b, offset, nodes);
  }

  lemma TableEnd(inodeBlocks: nat, perBlock: nat)
    ensures BlockBase(perBlock, inodeBlocks + 1) == inodeBlocks * perBlock
  {
  }

  /** The smallest unallocated inode number after `inum`, or the inode count: looks
      through the rest of the inode's block and then through the later blocks. */
  method SearchFree(disk: Disk, inum: int, block: int, offset: int, nodes: seq<InodeRec>) returns (next: int)
    requires TableOk(disk) && 1 <= block <= disk.inodeBlocks && 0 <= offset < disk.perBlock
    requires 0 <= inum < |disk.inodes| && BlockBase(disk.perBlock, block) + offset == inum
    requires
      var k := BlockBase(disk.perBlock, block);
      0 <= k && k + disk.perBlock <= |disk.inodes| && nodes == disk.inodes[k..k + disk.perBlock]
    ensures inum < next <= |disk.inodes| && (next < |disk.inodes| ==> !disk.inodes[next].inUse)
    ensures forall i :: inum < i < next ==> disk.inodes[i].inUse
  {
    hide BlockBase;
    var b, at, buffer, per := block, offset + 1, nodes, disk.perBlock;
    var visited := 0;
    var left := |disk.inodes| - inum + 1;
    TableEnd(disk.inodeBlocks, per);
    while visited != left
      invariant 1 <= b <= disk.inodeBlocks && 0 <= at <= per && 0 <= visited
      invariant BlockBase(per, b) + at == inum + visited + 1 <= |disk.inodes|
      invariant 0 <= BlockBase(per, b) && BlockBase(per, b) + per <= |disk.inodes|
      invariant buffer == disk.inodes[BlockBase(per, b)..BlockBase(per, b) + per]
      invariant forall i :: inum < i <= inum + visited ==> disk.inodes[i].inUse
      decreases disk.inodeBlocks - b
    {
      while at < per
        invariant 0 <= at <= per && 0 <= visited && BlockBase(per, b) + at == inum + visited + 1
        invariant forall i :: inum < i <= inum + visited ==> disk.inodes[i].inUse
      {
        visited := visited + 1;
        if !buffer[at].inUse {
          return inum + visited;
        }
        at := at + 1;
      }
      at := 0;
      BlockBaseNext(per, b);
      b := b + 1;
      if b > disk.inodeBlocks {
        break;
      }
      BlockInTable(disk.inodeBlocks, per, b);
      var _, next := ReadInodeBlock(disk, b);
      buffer := next;
    }
    return |disk.inodes|;
  }

  lemma CutToNothing(d: seq<Block>, f: FileMap, m: int)
    requires 0 <= m && Shaped(f, m)
    ensures FileOk(d, ZeroInode(), Cut(f, 0))
  {
    CutShape(f, 0, m);
    var f' := Cut(f, 0);
    assert forall r, j :: 0 <= r < 4 && 0 <= j < 4 ==> |f'[r][j]| == Need(r, j, 0);
  }

  /** Freeing one inode leaves a sound file system in which it has no blocks. */
  lemma FreeInodeOk(d: seq<Block>, lo: int, head: int, w: World, inodes: seq<InodeRec>, ino: int,
                    d': seq<Block>, head': int, w': World)
    requires FsOk(d, lo, head, w, inodes) && 0 <= ino < |inodes|
    requires WorldOk(d', lo, head', w') && Reclaimed(d, w, inodes[ino], d', w', ino)
    ensures FsOk(d', lo, head', w', inodes[ino := ZeroInode()])
  {
    var inodes' := inodes[ino := ZeroInode()];
    forall i | 0 <= i < |inodes| ensures FileOk(d', inodes'[i], w'.files[i]) {
      if i == ino {
        CutToNothing(d', w.files[ino], inodes[ino].blocks);
      } else {
        TreesFrame(d, d', w, i);
      }
    }
  }

  /** Frees an inode: its blocks, its record, and its number for the next allocation. */
  method FreeInode(disk: Disk, inum: int) returns (ok: bool)
    requires TableOk(disk) && FirstInoOk(disk.inodes, disk.firstIno) && disk.Sound()
    requires 0 <= inum < |disk.inodes| ==>
      && InodeOk(disk.D(), disk.inodeBlocks + 1, disk.freelistHead, disk.w, disk.inodes[inum], inum)
      && (disk.inodes[inum].blocks > 0 ==> disk.freelistHead != 0)
    modifies disk, disk.store
    ensures TableOk(disk) && disk.Sound()
    ensures old(FsOk(disk.D(), disk.inodeBlocks + 1, disk.freelistHead, disk.w, disk.inodes)) ==>
      FsOk(disk.D(), disk.inodeBlocks + 1, disk.freelistHead, disk.w, disk.inodes)
    ensures ok == (0 <= inum < |old(disk.inodes)|)
    ensures ok ==>
      && disk.inodes == old(disk.inodes)[inum := ZeroInode()]
      && disk.firstIno == (if inum < old(disk.firstIno) then inum else old(disk.firstIno))
      && Reclaimed(old(disk.D()), old(disk.w), old(disk.inodes[inum]), disk.D(), disk.w, inum)
      && (old(disk.inodes[inum].blocks) == 0 ==> disk.D() == old(disk.D()))
    ensures inum >= 3 || !ok ==> FirstInoOk(disk.inodes, disk.firstIno)
    ensures !ok ==> disk.D() == old(disk.D()) && disk.w == old(disk.w) && disk.inodes == old(disk.inodes)
  {
    hide WorldOk, FileOk, Reclaimed, FsOk;
    if !IsValidInodeNumber(disk, inum) {
      return false;
    }
    ghost var d, head, w, inodes := disk.D(), disk.freelistHead, disk.w, disk.inodes;
    var b, offset := InumToBlockPos(disk, inum);
    var _, nodes := ReadInodeBlock(disk, b);
    ok := FreeDataBlocksInInode(disk, nodes[offset], inum);
    if !ok {
      return false;
    }
    if FsOk(d, disk.inodeBlocks + 1, head, w, inodes) {
      FreeInodeOk(d, disk.inodeBlocks + 1, head, w, inodes, inum, disk.D(), disk.freelistHead, disk.w);
    }
    nodes := nodes[offset := InodeRec(false, 0, 0, 0, false, seq(12, _ => 0), 0, 0, 0, 0)];
    WriteInodeBlock(disk, b, nodes, offset, ZeroInode());
    disk.firstIno := if inum < disk.firstIno then inum else disk.firstIno;
  }

  lemma FsInode(d: seq<Block>, lo: int, head: int, w: World, inodes: seq<InodeRec>, ino: int)
    requires FsOk(d, lo, head, w, inodes) && 0 <= ino < |inodes|
    ensures InodeOk(d, lo, head, w, inodes[ino], ino) && |w.files| == |inodes|
  {
  }

  lemma FsWorld(d: seq<Block>, lo: int, head: int, w: World, inodes: seq<InodeRec>)
    requires FsOk(d, lo, head, w, inodes)
    ensures WorldOk(d, lo, head, w)
  {
  }

  lemma CreateKept(d: seq<Block>, lo: int, head: int, w: World, inodes: seq<InodeRec>, inum: int)
    requires FsOk(d, lo, head, w, inodes) && 0 <= inum < |inodes|
    ensures FsOk(d, lo, head, w, inodes[inum := inodes[inum].(inUse := true, links := 0)])
  {
    hide WorldOk, Shaped, TreesOk;
  }

  lemma FirstInoKept(inodes: seq<InodeRec>, i: int, rec: InodeRec, first: int)
    requires FirstInoOk(inodes, first) && 0 <= i < |inodes| && rec.inUse == inodes[i].inUse
    ensures FirstInoOk(inodes[i := rec], first)
  {
  }

  /** Freeing an inode without blocks changes nothing of any inode. */
  lemma ReclaimedNothing(d: seq<Block>, lo: int, head: int, w: World, rec: InodeRec, d': seq<Block>, w': World, ino: int)
    requires InodeOk(d, lo, head, w, rec, ino) && rec.blocks == 0 && Reclaimed(d, w, rec, d', w', ino)
    ensures |d'| == |d| && w'.files == w.files
    ensures forall x :: x in w.owner && w.owner[x].At? ==>
      x in w'.owner && w'.owner[x] == w.owner[x] && 0 <= x < |d| && d'[x] == d[x]
  {
    hide Cut, NumFree, Shaped, IndexBlocks, TreesOk, Need;
    CutAll(w.files[ino], w.files[ino]);
    forall x | x in w.owner && w.owner[x].At? ensures w.owner[x].ino != ino {
      assert PositionHolds(w.files, w.owner[x], x);
    }
  }
}
