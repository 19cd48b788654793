/** Who owns each block of the data region.

    `World` is ghost bookkeeping beside the disk: the chain of free-list
    blocks, the index trees of every inode, and for each data-region block the
    one place that holds it.  `owner` is a map from blocks to places and the
    invariants say that the place really holds the block, in both directions,
    so a block can never be held twice. */
module Ownership {
  import opened Blocks

  /** The trees of one inode: `f[r]` is region `r` (0 direct, 1 single, 2 double,
      3 triple indirect), `f[r][0]` its data blocks in file order and `f[r][j]`
      the index blocks `j` levels above them. */
  type FileMap = f: seq<seq<seq<int>>> | |f| == 4 && forall r :: 0 <= r < 4 ==> |f[r]| == 4
    witness seq(4, _ => seq(4, _ => []))

  /** The fields of `struct inode` that the modelled code uses. */
  datatype InodeRec = InodeRec(
    isDir: bool,
    links: int,
    size: int,
    blocks: int,
    inUse: bool,
    direct: seq<int>,
    single: int,
    double: int,
    triple: int,
    children: int
  )

  /** A zeroed inode, as in a fresh inode block. */
  function ZeroInode(): InodeRec {
    InodeRec(false, 0, 0, 0, false, seq(12, _ => 0), 0, 0, 0, 0)
  }

  datatype Owner =
    | Chain(pos: nat)                        // free, and itself a free-list block
    | Slot(block: int, slot: int)            // free, listed in that slot of a free-list block
    | Held                                   // allocated, not attached to an inode
    | At(ino: int, r: int, j: int, k: int)   // in inode `ino` at f[r][j][k]
  {
    predicate Free() {
      Chain? || Slot?
    }
  }

  datatype World = World(chain: seq<int>, owner: map<int, Owner>, files: seq<FileMap>)

  /** The free-list block that block `p` of the chain links to, or 0. */
  function Below(chain: seq<int>, p: int): int
    requires 0 <= p <= |chain|
  {
    if p == 0 then 0 else chain[p - 1]
  }

  /** The on-disk free list: a chain from `head`, block `p` linking to `p - 1`
      in word 0 and listing free blocks in its other words. */
  ghost predicate FreeListOk(d: seq<Block>, head: int, chain: seq<int>, owner: map<int, Owner>) {
    && (forall x :: x in owner ==> 0 < x < |d|)
    && head == Below(chain, |chain|)
    && (forall p :: 0 <= p < |chain| ==> chain[p] in owner && owner[chain[p]] == Chain(p))
    && (forall x :: x in owner && owner[x].Chain? ==>
          owner[x].pos < |chain| && chain[owner[x].pos] == x)
    && (forall x {:trigger d[x]} :: x in owner && owner[x].Chain? ==> d[x][0] == Below(chain, owner[x].pos))
    && (forall x, s :: x in owner && owner[x].Chain? && 1 <= s < K && d[x][s] != 0 ==>
          d[x][s] in owner && owner[d[x][s]] == Slot(x, s))
    && (forall x :: x in owner && owner[x].Slot? ==>
          var Slot(c, s) := owner[x];
          c in owner && owner[c].Chain? && 1 <= s < K && d[c][s] == x)
  }

  /** `owner` and the trees of the inodes agree. */
  ghost predicate PositionsOk(owner: map<int, Owner>, files: seq<FileMap>) {
    && (forall ino, r, j, k {:trigger files[ino][r][j][k]} ::
          0 <= ino < |files| && 0 <= r < 4 && 0 <= j < 4 && 0 <= k < |files[ino][r][j]| ==>
            files[ino][r][j][k] in owner && owner[files[ino][r][j][k]] == At(ino, r, j, k))
    && (forall x :: x in owner && owner[x].At? ==> PositionHolds(files, owner[x], x))
  }

  ghost predicate PositionHolds(files: seq<FileMap>, o: Owner, x: int)
    requires o.At?
  {
    && 0 <= o.ino < |files| && 0 <= o.r < 4 && 0 <= o.j < 4
    && 0 <= o.k < |files[o.ino][o.r][o.j]| && files[o.ino][o.r][o.j][o.k] == x
  }

  ghost predicate RegionOk(lo: int, hi: int, owner: map<int, Owner>) {
    0 < lo && forall x :: x in owner <==> lo <= x < hi
  }

  /** The bookkeeping of the whole data region `lo..|d|`. */
  ghost predicate WorldOk(d: seq<Block>, lo: int, head: int, w: World) {
    && RegionOk(lo, |d|, w.owner)
    && FreeListOk(d, head, w.chain, w.owner)
    && PositionsOk(w.owner, w.files)
  }

  ghost function FreeSet(owner: map<int, Owner>): set<nat> {
    set x: nat | x in owner && owner[x].Free()
  }

  /** Blocks that are not free keep their contents. */
  ghost predicate SameOutsideFree(d: seq<Block>, d': seq<Block>, owner: map<int, Owner>)
  {
    |d'| == |d| && forall x :: 0 <= x < |d| && (x in owner ==> !owner[x].Free()) ==> d'[x] == d[x]
  }

  ghost function NumFree(owner: map<int, Owner>): nat {
    |FreeSet(owner)|
  }

  lemma NumFreeStep(owner: map<int, Owner>, x: int, o: Owner)
    requires 0 <= x && x in owner && owner[x].Free() && !o.Free()
    ensures FreeSet(owner[x := o]) == FreeSet(owner) - {x}
    ensures NumFree(owner[x := o]) == NumFree(owner) - 1
  {
    assert FreeSet(owner[x := o]) == FreeSet(owner) - {x};
  }

  lemma NumFreeSame(owner: map<int, Owner>, x: int, o: Owner)
    requires x in owner && !owner[x].Free() && !o.Free()
    ensures FreeSet(owner[x := o]) == FreeSet(owner)
    ensures NumFree(owner[x := o]) == NumFree(owner)
  {
    assert FreeSet(owner[x := o]) == FreeSet(owner);
  }

  lemma SomeFree(owner: map<int, Owner>) returns (x: int)
    requires NumFree(owner) != 0
    ensures x in owner && owner[x].Free()
  {
    x :| x in FreeSet(owner);
  }

  lemma NumFreeMore(owner: map<int, Owner>, x: int, o: Owner)
    requires 0 <= x && x in owner && !owner[x].Free() && o.Free()
    ensures FreeSet(owner[x := o]) == FreeSet(owner) + {x}
    ensures NumFree(owner[x := o]) == NumFree(owner) + 1
  {
    assert FreeSet(owner[x := o]) == FreeSet(owner) + {x};
  }
}
