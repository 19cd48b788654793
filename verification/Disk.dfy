/** The disk, its superblock fields and inode table, and the block allocator. */
module Disk {
  import opened Blocks
  import opened Ownership
  import opened FreeList

  /** The in-memory copy of an inode that the program works on. */
  class Inode {
    var isDir: bool
    var links: int
    var size: int
    var blocks: int
    var inUse: bool
    var direct: seq<int>
    var single: int
    var double: int
    var triple: int
    var children: int

    constructor (rec: InodeRec)
      ensures Rec() == rec
    {
      isDir, links, size, blocks, inUse := rec.isDir, rec.links, rec.size, rec.blocks, rec.inUse;
      direct, single, double, triple := rec.direct, rec.single, rec.double, rec.triple;
      children := rec.children;
    }

    function Rec(): InodeRec
      reads this
    {
      InodeRec(isDir, links, size, blocks, inUse, direct, single, double, triple, children)
    }
  }

  class Disk {
    const store: array<Block>     // the blocks of the device
    const inodeBlocks: nat        // INODE_BLOCK_COUNT
    const perBlock: nat           // inodes in one inode block
    var freelistHead: int         // s_freelist_head
    var firstIno: int             // s_first_ino
    var inodes: seq<InodeRec>     // the contents of the inode blocks
    ghost var w: World

    /** A zeroed device, not yet formatted. */
    constructor (blockCount: nat, inodeBlocks: nat, perBlock: nat)
      ensures store.Length == blockCount && this.inodeBlocks == inodeBlocks && this.perBlock == perBlock
      ensures fresh(store) && D() == seq(blockCount, _ => ZeroBlock())
    {
      store := new Block[blockCount](_ => ZeroBlock());
      this.inodeBlocks := inodeBlocks;
      this.perBlock := perBlock;
      freelistHead, firstIno, inodes := 0, 0, [];
      w := World([], map[], []);
    }

    ghost function D(): (d: seq<Block>)
      reads store
      ensures |d| == store.Length
    {
      store[..]
    }

    ghost predicate Sound()
      reads this, store
    {
      WorldOk(D(), inodeBlocks + 1, freelistHead, w)
    }

    method ReadBlock(x: int) returns (ok: bool, b: Block)
      ensures ok == (0 <= x < store.Length)
      ensures ok ==> b == D()[x]
    {
      if x < 0 || x >= store.Length {
        return false, ZeroBlock();
      }
      return true, store[x];
    }

    method WriteBlock(x: int, b: Block) returns (ok: bool)
      modifies store
      ensures ok == (0 <= x < store.Length)
      ensures D() == Put(old(D()), x, b)
    {
      if x < 0 || x >= store.Length {
        return false;
      }
      store[x] := b;
      return true;
    }

    method AllocateDataBlock() returns (x: int)
      requires Sound()
      modifies this`freelistHead, this`w, store
      ensures Sound()
      ensures (x == -1) == (old(freelistHead) == 0)
      ensures x == -1 ==> D() == old(D()) && w == old(w) && freelistHead == 0
      ensures x != -1 ==>
        && x in old(w.owner) && old(w.owner)[x].Free()
        && w.owner == old(w.owner)[x := Held] && w.files == old(w.files)
        && D()[x] == ZeroBlock() && SameOutsideFree(old(D()), D(), old(w.owner))
      ensures Allocation(D(), freelistHead, x) == Allocate(old(D()), old(freelistHead))
    {
      hide WorldOk;
      if freelistHead == 0 {
        return -1;
      }
      AllocateOk(D(), inodeBlocks + 1, freelistHead, w);
      var ok, buffer := ReadBlock(freelistHead);
      if !ok {
        return -1;
      }
      var taken := 0;
      var i := 1;
      while i < K
        invariant 1 <= i <= K
        invariant taken == 0 && buffer == old(D())[freelistHead]
        invariant Scan(buffer, true, 1) == Scan(buffer, true, i)
      {
        var number := buffer[i];
        if number != 0 {
          buffer := buffer[i := 0];
          taken := number;
          break;
        }
        i := i + 1;
      }
      var temp := freelistHead;
      ghost var w' := AllocatedWorld(D(), w);
      if taken == 0 {
        taken := freelistHead;
        freelistHead := buffer[0];
        buffer := buffer[0 := 0];
      }
      var written := WriteBlock(temp, buffer);
      if !written {
        return -1;
      }
      buffer := ZeroBlock();
      var _ := WriteBlock(taken, buffer);
      w := w';
      return taken;
    }

    method ReadDataBlock(x: int) returns (ok: bool, b: Block)
      ensures ok == (inodeBlocks < x < store.Length)
      ensures ok ==> b == D()[x]
    {
      if x <= inodeBlocks || x > store.Length {
        return false, ZeroBlock();
      }
      ok, b := ReadBlock(x);
    }

    method WriteDataBlock(x: int, b: Block) returns (ok: bool)
      modifies store
      ensures ok == (inodeBlocks < x < store.Length)
      ensures D() == if ok then old(D())[x := b] else old(D())
    {
      if x <= inodeBlocks || x > store.Length {
        return false;
      }
      ok := WriteBlock(x, b);
    }

    method FreeDataBlock(x: int) returns (ok: bool)
      modifies this`freelistHead, store
      ensures x <= inodeBlocks || x > store.Length ==>
        !ok && D() == old(D()) && freelistHead == old(freelistHead)
      ensures inodeBlocks < x <= store.Length ==>
        Release(D(), freelistHead, ok) == Free(old(D()), old(freelistHead), x)
    {
      if x <= inodeBlocks || x > store.Length {
        return false;
      }
      // If every block is taken, the freed block becomes the head.
      if freelistHead == 0 {
        freelistHead := x;
      }
      var readable, buffer := ReadBlock(freelistHead);
      if !readable {
        return false;
      }
      var added := false;
      var i := 1;
      while i < K
        invariant 1 <= i <= K
        invariant !added && buffer == D()[freelistHead]
        invariant Scan(buffer, false, 1) == Scan(buffer, false, i)
      {
        if buffer[i] == 0 {
          buffer := buffer[i := x];
          added := true;
          break;
        }
        i := i + 1;
      }
      if !added {
        var temp := freelistHead;
        freelistHead := x;
        buffer := ZeroBlock()[0 := temp];
        ok := WriteBlock(x, buffer);
      } else {
        ok := WriteBlock(freelistHead, buffer);
      }
    }

    /** `FreeDataBlock` on a block that is held, with the bookkeeping. */
    method FreeHeld(x: int) returns (ok: bool)
      requires Sound() && freelistHead != 0 && x in w.owner && w.owner[x] == Held
      modifies this`freelistHead, this`w, store
      ensures ok && Sound() && freelistHead != 0
      ensures x in w.owner && w.owner[x].Free() && w.owner == old(w.owner)[x := w.owner[x]]
      ensures w.files == old(w.files) && SameOutsideFree(old(D()), D(), w.owner)
    {
      hide WorldOk;
      FreeOk(D(), inodeBlocks + 1, freelistHead, w, x);
      ghost var w' := FreedWorld(D(), w, x);
      ok := FreeDataBlock(x);
      w := w';
    }
  }
}
