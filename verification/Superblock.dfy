/** Formatting the device: superblock, inode blocks and free list. */
module Superblock {
  import opened Blocks
  import opened Ownership
  import opened BlockMap
  import opened Disk

  const FIRST_INO: int := 3

  /** What slot `j` of the free-list block `x` of a formatted device holds. */
  function ListEntry(hi: int, x: int, j: int): int {
    var y := x + (if j == 0 then K else j);
    if y >= hi then 0 else y
  }

  /** Every `K`-th block of the data region is a free-list block. */
  ghost predicate Formatted(d: seq<Block>, lo: int) {
    forall x, j :: 0 <= lo <= x < |d| && (x - lo) % K == 0 && 0 <= j < K ==> d[x][j] == ListEntry(|d|, x, j)
  }

  /** Where block `x` of a formatted data region is in the free list. */
  function Place(lo: int, hi: int, x: int): Owner
    requires lo <= x < hi
  {
    if (x - lo) % K == 0 then Chain((hi - 1 - lo) / K - (x - lo) / K)
    else Slot(x - (x - lo) % K, (x - lo) % K)
  }

  function NoBlocks(): FileMap {
    seq(4, _ => seq(4, _ => []))
  }

  /** Everything is free, and the inodes have no blocks. */
  ghost function FreshWorld(lo: int, hi: int, inodes: nat): World
    requires lo < hi
  {
    var q := Later(lo, hi);
    World(seq(q + 1, p => lo + K * (q - p)), map x | lo <= x < hi :: Place(lo, hi, x), seq(inodes, _ => NoBlocks()))
  }

  /** The number of free-list blocks after the head. */
  function Later(lo: int, hi: int): int
    requires lo < hi
  {
    (hi - 1 - lo) / K
  }

  lemma PlaceOfChain(lo: int, hi: int, p: int)
    requires 0 < lo < hi && 0 <= p <= Later(lo, hi)
    ensures
      var x := lo + K * (Later(lo, hi) - p);
      && lo <= x < hi && (x - lo) % K == 0 && Place(lo, hi, x) == Chain(p)
      && ListEntry(hi, x, 0) == if p == 0 then 0 else lo + K * (Later(lo, hi) - (p - 1))
  {
    var q := Later(lo, hi) - p;
    assert (K * q) % K == 0 && (K * q) / K == q;
  }

  lemma PlaceOfSlot(lo: int, hi: int, x: int, s: int)
    requires 0 < lo <= x < hi && (x - lo) % K == 0 && 1 <= s < K
    ensures ListEntry(hi, x, s) == if x + s < hi then x + s else 0
    ensures x + s < hi ==> Place(lo, hi, x + s) == Slot(x, s)
  {
  }

  lemma PlaceInverse(lo: int, hi: int, x: int)
    requires 0 < lo <= x < hi
    ensures
      match Place(lo, hi, x)
      case Chain(p) => p <= Later(lo, hi) && lo + K * (Later(lo, hi) - p) == x && (x - lo) % K == 0
      case Slot(c, s) => lo <= c < hi && (c - lo) % K == 0 && 1 <= s < K && c + s == x
      case _ => false
  {
  }

  /** The two sides of the bookkeeping of a formatted device. */
  ghost predicate Fresh(lo: int, hi: int, chain: seq<int>, owner: map<int, Owner>) {
    && 0 < lo < hi && |chain| == Later(lo, hi) + 1
    && (forall p :: 0 <= p < |chain| ==> chain[p] == lo + K * (Later(lo, hi) - p))
    && (forall x :: x in owner ==> lo <= x < hi)
    && (forall x :: lo <= x < hi ==> x in owner && owner[x] == Place(lo, hi, x))
  }

  lemma FreshHead(lo: int, hi: int, chain: seq<int>, owner: map<int, Owner>)
    requires Fresh(lo, hi, chain, owner)
    ensures lo == Below(chain, |chain|) && forall x :: x in owner ==> 0 < x < hi
  {
  }

  lemma FreshChain(lo: int, hi: int, chain: seq<int>, owner: map<int, Owner>, p: int)
    requires Fresh(lo, hi, chain, owner) && 0 <= p < |chain|
    ensures chain[p] in owner && owner[chain[p]] == Chain(p)
  {
    PlaceOfChain(lo, hi, p);
  }

  lemma FreshNext(d: seq<Block>, lo: int, chain: seq<int>, owner: map<int, Owner>, x: int)
    requires Fresh(lo, |d|, chain, owner) && Formatted(d, lo) && x in owner && owner[x].Chain?
    ensures owner[x].pos < |chain| && chain[owner[x].pos] == x && d[x][0] == Below(chain, owner[x].pos)
  {
    hide Place, ListEntry;
    PlaceInverse(lo, |d|, x);
    PlaceOfChain(lo, |d|, owner[x].pos);
    assert d[x][0] == ListEntry(|d|, x, 0);
  }

  lemma FreshEntry(d: seq<Block>, lo: int, chain: seq<int>, owner: map<int, Owner>, x: int, s: int)
    requires Fresh(lo, |d|, chain, owner) && Formatted(d, lo) && x in owner && owner[x].Chain?
    requires 1 <= s < K && d[x][s] != 0
    ensures d[x][s] in owner && owner[d[x][s]] == Slot(x, s)
  {
    hide Place, ListEntry;
    PlaceInverse(lo, |d|, x);
    PlaceOfSlot(lo, |d|, x, s);
    assert d[x][s] == ListEntry(|d|, x, s);
  }

  lemma FreshSlot(d: seq<Block>, lo: int, chain: seq<int>, owner: map<int, Owner>, x: int)
    requires Fresh(lo, |d|, chain, owner) && Formatted(d, lo) && x in owner && owner[x].Slot?
    ensures
      var Slot(c, s) := owner[x];
      c in owner && owner[c].Chain? && 1 <= s < K && d[c][s] == x
  {
    hide Place, ListEntry;
    var Slot(c, s) := owner[x];
    PlaceInverse(lo, |d|, x);
    PlaceOfSlot(lo, |d|, c, s);
    ChainPlace(lo, |d|, c);
    assert d[c][s] == ListEntry(|d|, c, s);
  }

  lemma FreshList(d: seq<Block>, lo: int, chain: seq<int>, owner: map<int, Owner>)
    requires Fresh(lo, |d|, chain, owner) && Formatted(d, lo)
    ensures FreeListOk(d, lo, chain, owner)
  {
    hide Fresh, Formatted;
    FreshHead(lo, |d|, chain, owner);
    forall p | 0 <= p < |chain| ensures chain[p] in owner && owner[chain[p]] == Chain(p) {
      FreshChain(lo, |d|, chain, owner, p);
    }
    forall x | x in owner && owner[x].Chain?
      ensures owner[x].pos < |chain| && chain[owner[x].pos] == x && d[x][0] == Below(chain, owner[x].pos)
    {
      FreshNext(d, lo, chain, owner, x);
    }
    forall x, s | x in owner && owner[x].Chain? && 1 <= s < K && d[x][s] != 0
      ensures d[x][s] in owner && owner[d[x][s]] == Slot(x, s)
    {
      FreshEntry(d, lo, chain, owner, x, s);
    }
    forall x | x in owner && owner[x].Slot?
      ensures
        var Slot(c, s) := owner[x];
        c in owner && owner[c].Chain? && 1 <= s < K && d[c][s] == x
    {
      FreshSlot(d, lo, chain, owner, x);
    }
  }

  lemma ChainPlace(lo: int, hi: int, c: int)
    requires 0 < lo <= c < hi && (c - lo) % K == 0
    ensures Place(lo, hi, c).Chain?
  {
  }

  lemma FormattedOk(d: seq<Block>, lo: int, inodes: nat)
    requires 0 < lo < |d| && Formatted(d, lo)
    ensures WorldOk(d, lo, lo, FreshWorld(lo, |d|, inodes))
  {
    hide FreeListOk;
    var w := FreshWorld(lo, |d|, inodes);
    FreshList(d, lo, w.chain, w.owner);
  }

  /** Writes the superblock fields of an empty file system. */
  method CreateSuperblock(disk: Disk)
    modifies disk`firstIno, disk`freelistHead
    ensures disk.firstIno == FIRST_INO && disk.freelistHead == disk.inodeBlocks + 1
  {
    disk.firstIno := FIRST_INO;
    disk.freelistHead := disk.inodeBlocks + 1;
  }

  /** Zeroes the inode blocks, and with them every inode. */
  method CreateIlist(disk: Disk)
    requires disk.inodeBlocks < disk.store.Length
    modifies disk`inodes, disk.store
    ensures disk.inodes == seq(disk.inodeBlocks * disk.perBlock, _ => ZeroInode())
    ensures forall x :: 1 <= x <= disk.inodeBlocks ==> disk.D()[x] == ZeroBlock()
    ensures forall x :: disk.inodeBlocks < x < disk.store.Length ==> disk.D()[x] == old(disk.D())[x]
  {
    for x := 1 to disk.inodeBlocks + 1
      invariant forall y :: 1 <= y < x ==> disk.D()[y] == ZeroBlock()
      invariant forall y :: disk.inodeBlocks < y < disk.store.Length ==> disk.D()[y] == old(disk.D())[y]
    {
      var _ := disk.WriteBlock(x, ZeroBlock());
    }
    disk.inodes := seq(disk.inodeBlocks * disk.perBlock, _ => ZeroInode());
  }

  /** Writes the free list.  Its last block lies behind the device, and the write
      fails, exactly when the number of data blocks is a multiple of `K`. */
  method CreateFreelist(disk: Disk) returns (ok: bool)
    requires disk.freelistHead == disk.inodeBlocks + 1 <= disk.store.Length
    modifies disk.store
    ensures ok <==> (disk.store.Length - disk.inodeBlocks - 1) % K != 0
    ensures Formatted(disk.D(), disk.inodeBlocks + 1)
  {
    var hi := disk.store.Length;
    ghost var lo := disk.inodeBlocks + 1;
    var count := (hi - disk.inodeBlocks - 1) / K + 1;
    var blocknum := disk.freelistHead;
    var i := 0;
    while i < count
      invariant 0 <= i <= count && blocknum == lo + K * i && (i > 0 ==> lo + K * (i - 1) < hi)
      invariant forall x, j :: lo <= x < hi && x < blocknum && (x - lo) % K == 0 && 0 <= j < K ==>
        disk.D()[x][j] == ListEntry(hi, x, j)
    {
      var curr := blocknum;
      var buffer := ZeroBlock();
      for j := 1 to K
        invariant blocknum == curr + j - 1
        invariant forall t :: 1 <= t < j ==> buffer[t] == ListEntry(hi, curr, t)
      {
        blocknum := blocknum + 1;
        buffer := buffer[j := if blocknum >= hi then 0 else blocknum];
      }
      blocknum := blocknum + 1;
      buffer := buffer[0 := if blocknum >= hi then 0 else blocknum];
      ok := disk.WriteBlock(curr, buffer);
      if !ok {
        return false;
      }
      i := i + 1;
    }
    return true;
  }

  /** Formats the device.  On success the whole data region is free, each block at
      its one place in the free list, and no inode has any blocks. */
  method MakeFs(disk: Disk) returns (ok: bool)
    requires disk.inodeBlocks < disk.store.Length
    modifies disk, disk.store
    ensures ok <==> (disk.store.Length - disk.inodeBlocks - 1) % K != 0
    ensures ok ==>
      && disk.Sound() && NumFree(disk.w.owner) == disk.store.Length - disk.inodeBlocks - 1
      && (forall x :: x in disk.w.owner ==> disk.w.owner[x].Free())
      && |disk.w.files| == |disk.inodes| == disk.inodeBlocks * disk.perBlock
      && disk.firstIno == FIRST_INO
      && (forall ino :: 0 <= ino < |disk.inodes| ==>
            disk.inodes[ino] == ZeroInode() && FileOk(disk.D(), disk.inodes[ino], disk.w.files[ino]))
  {
    hide Formatted, WorldOk, FileOk, NumFree, FreshWorld;
    CreateSuperblock(disk);
    CreateIlist(disk);
    ok := CreateFreelist(disk);
    if ok {
      ghost var lo, hi := disk.inodeBlocks + 1, disk.store.Length;
      FreshFacts(disk.D(), lo, |disk.inodes|);
      disk.w := FreshWorld(lo, hi, |disk.inodes|);
    }
  }

  lemma FreshFacts(d: seq<Block>, lo: int, inodes: nat)
    requires 0 < lo < |d| && Formatted(d, lo)
    ensures
      var w := FreshWorld(lo, |d|, inodes);
      && WorldOk(d, lo, lo, w) && NumFree(w.owner) == |d| - lo
      && (forall x :: x in w.owner ==> w.owner[x].Free())
      && |w.files| == inodes && (forall i :: 0 <= i < inodes ==> FileOk(d, ZeroInode(), w.files[i]))
  {
    hide Formatted, WorldOk, FileOk, NumFree, NoBlocks, Place;
    FormattedOk(d, lo, inodes);
    AllFree(lo, |d|, FreshWorld(lo, |d|, inodes).owner);
    EmptyFile(d);
  }

  lemma EmptyFile(d: seq<Block>)
    ensures FileOk(d, ZeroInode(), NoBlocks())
  {
  }

  lemma AllFree(lo: int, hi: int, owner: map<int, Owner>)
    requires 0 < lo < hi && owner == FreshWorld(lo, hi, 0).owner
    ensures NumFree(owner) == hi - lo && forall x :: x in owner ==> owner[x].Free()
  {
    CountRange(lo, hi);
    assert FreeSet(owner) == Range(lo, hi);
  }

  predicate AtLeast(x: int, lo: int) {
    lo <= x
  }

  ghost function Range(lo: int, hi: int): set<nat> {
    set x: nat | x < hi && AtLeast(x, lo)
  }

  lemma {:induction false} CountRange(lo: int, hi: int)
    requires 0 <= lo <= hi
    ensures |Range(lo, hi)| == hi - lo
    decreases hi - lo
  {
    if lo < hi {
      CountRange(lo, hi - 1);
      assert Range(lo, hi) == Range(lo, hi - 1) + {hi - 1 as nat};
    } else {
      assert Range(lo, hi) == {};
    }
  }
}
