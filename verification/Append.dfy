/** Appending a data block to an inode, growing its index trees. */
module Append {
  import opened Blocks
  import opened Ownership
  import opened FreeList
  import opened BlockMap
  import opened Attaching
  import opened Disk

  /** The index blocks that the append to a map of `n` blocks allocates. */
  function Growth(n: int): int {
    IndexBlocks(n + 1) - IndexBlocks(n)
  }

  /** Everything but the block count and the block pointers stays. */
  predicate SameAttributes(rec: InodeRec, rec': InodeRec) {
    rec' == rec.(blocks := rec'.blocks, direct := rec'.direct,
                 single := rec'.single, double := rec'.double, triple := rec'.triple)
  }

  ghost predicate AppendReady(d: seq<Block>, lo: int, head: int, w: World, rec: InodeRec, ino: int, b: int) {
    && WorldOk(d, lo, head, w) && 0 <= ino < |w.files| && FileOk(d, rec, w.files[ino])
    && b in w.owner && w.owner[b] == Held
  }

  ghost predicate Appended(d: seq<Block>, w: World, rec: InodeRec, d': seq<Block>, w': World, rec': InodeRec,
                           ino: int, b: int)
    requires 0 <= ino < |w.files| && 0 <= rec.blocks
  {
    && Evolves(d, w, d', w', ino, b)
    && rec.blocks < MAX_BLOCKS && rec'.blocks == rec.blocks + 1 && SameAttributes(rec, rec')
    && FileOk(d', rec', w'.files[ino])
    && Grown(w.files[ino], rec.blocks, b, w'.files[ino])
    && NumFree(w.owner) == NumFree(w'.owner) + Growth(rec.blocks)
  }

  /** How many index blocks region `r` of a map has. */
  function IndexSize(f: FileMap, r: int): int
    requires 0 <= r < 4
  {
    |f[r][1]| + |f[r][2]| + |f[r][3]|
  }

  /** Region `r` has gained at most one block on each level, and no other region has changed. */
  ghost predicate OneMore(f: FileMap, f': FileMap, r: int)
    requires 0 <= r < 4
  {
    && (forall q :: 0 <= q < 4 && q != r ==> f'[q] == f[q])
    && (forall j :: 0 <= j < 4 ==> |f[r][j]| <= |f'[r][j]| <= |f[r][j]| + 1)
  }

  /** The append failed: the data blocks are as before.  If the disk ran out of blocks, the
      index blocks taken on the way stay in the trees, and the inode's pointers reach them. */
  ghost predicate AppendFailed(d: seq<Block>, w: World, rec: InodeRec, d': seq<Block>, w': World, rec': InodeRec,
                               ino: int, b: int)
    requires 0 <= ino < |w.files| && 0 <= rec.blocks
  {
    && Evolves(d, w, d', w', ino, b) && w'.owner[b] == Held
    && rec'.blocks == rec.blocks && SameAttributes(rec, rec')
    && TreesOk(d', w'.files[ino]) && Rooted(rec', w'.files[ino])
    && (forall r :: 0 <= r < 4 ==> w'.files[ino][r][0] == w.files[ino][r][0])
    && if rec.blocks < MAX_BLOCKS then
         var r := Region(rec.blocks);
         && OneMore(w.files[ino], w'.files[ino], r) && NumFree(w'.owner) == 0
         && NumFree(w.owner) == IndexSize(w'.files[ino], r) - IndexSize(w.files[ino], r) < Growth(rec.blocks)
       else d' == d && w' == w && rec' == rec
  }

  /** Which levels a map of `n` blocks grows at: 1 for a new index block. */
  function Grows(n: int, j: int): (g: int)
    requires 0 <= n < MAX_BLOCKS && 0 <= j
    ensures 0 <= g <= 1
  {
    if Aligned(n - Start(Region(n)), j) then 1 else 0
  }

  /** The new index blocks at levels `j` and above. */
  function GrowsFrom(n: int, j: int): (g: int)
    requires 0 <= n < MAX_BLOCKS && 0 <= j
    ensures g >= 0
    decreases Region(n) - j
  {
    if j > Region(n) then 0 else Grows(n, j) + GrowsFrom(n, j + 1)
  }

  lemma GrowthValue(n: int)
    requires 0 <= n < MAX_BLOCKS
    ensures Growth(n) == GrowsFrom(n, 1)
  {
    hide Need, Start, Aligned;
    assert GrowsFrom(n, 2) == (if Region(n) < 2 then 0 else Grows(n, 2) + GrowsFrom(n, 3));
    assert GrowsFrom(n, 3) == (if Region(n) < 3 then 0 else Grows(n, 3));
    forall r, j | 1 <= j <= r < 4 ensures Need(r, j, n + 1) - Need(r, j, n) == if r == Region(n) then Grows(n, j) else 0 {
      NeedStep(n, r, j);
    }
  }

  /** `f'` is the map `f` of `n` blocks with `b` appended. */
  ghost predicate Grown(f: FileMap, n: int, b: int, f': FileMap)
    requires 0 <= n < MAX_BLOCKS
  {
    && GrownFrom(f, n, 0, f')
    && f'[Region(n)][0] == f[Region(n)][0] + [b]
  }

  /** `f'` is `f` after growing the levels from `j` up for one more block. */
  ghost predicate GrownFrom(f: FileMap, n: int, j: int, f': FileMap)
    requires 0 <= n < MAX_BLOCKS
  {
    var r := Region(n);
    && (forall q :: 0 <= q < 4 && q != r ==> f'[q] == f[q])
    && (forall k :: 0 <= k < 4 && (k < j || k > r) ==> f'[r][k] == f[r][k])
    && (forall k :: 0 <= j <= k <= r ==> |f'[r][k]| == Down(n - Start(r), k) + 1)
  }

  lemma GrownShape(f: FileMap, n: int, b: int, f': FileMap)
    requires 0 <= n < MAX_BLOCKS && Shaped(f, n) && Grown(f, n, b, f')
    ensures Shaped(f', n + 1)
  {
    hide Need, Region, Start, Down, Aligned;
    forall q, j | 0 <= q < 4 && 0 <= j < 4 ensures |f'[q][j]| == Need(q, j, n + 1) {
      NeedStep(n, q, j);
    }
  }

  /** The middle of appending block `n` to inode `ino`: the levels from `j` up
      have grown, those below not yet, and `t` free blocks have been taken. */
  ghost predicate Partly(d: seq<Block>, lo: int, head: int, w: World, ino: int, b: int, n: int, j: int, t: int,
                         d0: seq<Block>, w0: World)
    requires 0 <= n < MAX_BLOCKS && 0 <= j
  {
    && WorldOk(d, lo, head, w) && 0 <= ino < |w.files| == |w0.files|
    && TreesOk(d, w.files[ino])
    && Evolves(d0, w0, d, w, ino, b)
    && w0.owner[b] == Held && w.owner[b] == Held
    && Shaped(w0.files[ino], n) && GrownFrom(w0.files[ino], n, j, w.files[ino])
    && NumFree(w0.owner) == NumFree(w.owner) + t
  }

  /** A level that is not aligned already has the index block it needs. */
  lemma NotGrown(f: FileMap, n: int, j: int, f': FileMap)
    requires 0 <= n < MAX_BLOCKS && 0 <= j <= Region(n) && !Aligned(n - Start(Region(n)), j)
    requires Shaped(f, n) && GrownFrom(f, n, j + 1, f')
    ensures GrownFrom(f, n, j, f')
  {
    NeedStep(n, Region(n), j);
  }

  /** An aligned level that has not grown yet: its size, and its size one more. */
  lemma LevelGrows(f: FileMap, n: int, j: int, f': FileMap, x: int)
    requires 0 <= n < MAX_BLOCKS && 0 <= j <= Region(n) && Aligned(n - Start(Region(n)), j)
    requires Shaped(f, n) && GrownFrom(f, n, j + 1, f')
    ensures |f'[Region(n)][j]| == Down(n - Start(Region(n)), j)
    ensures GrownFrom(f, n, j, Push(f', Region(n), j, x))
  {
    NeedStep(n, Region(n), j);
  }

  /** Attaching the block `x` that level `j` was waiting for. */
  lemma AttachStep(d: seq<Block>, lo: int, head: int, w: World, ino: int, b: int, n: int, j: int, t: int,
                   d0: seq<Block>, w0: World, x: int, d': seq<Block>)
    requires 0 <= n < MAX_BLOCKS && 1 <= j <= Region(n) && Aligned(n - Start(Region(n)), j)
    requires Partly(d, lo, head, w, ino, b, n, j + 1, t, d0, w0)
    requires x in w.owner && w.owner[x] == Held && d[x] == ZeroBlock()
    requires x in w0.owner && w0.owner[x].Free()
    requires LinkedAt(d, w.files[ino], Region(n), j, x, d')
    ensures Partly(d', lo, head, Attach(w, ino, Region(n), j, x), ino, b, n, j, t, d0, w0)
  {
    var r := Region(n);
    AttachOk(d, lo, head, w, ino, r, j, x, d');
    EvolvesAttach(d0, w0, d, w, d', ino, b, r, j, x);
    NumFreeSame(w.owner, x, At(ino, r, j, |w.files[ino][r][j]|));
    LevelGrows(w0.files[ino], n, j, w.files[ino], x);
  }

  /** The block `x` has been allocated; nothing else has changed hands. */
  ghost predicate Taken(d: seq<Block>, w: World, d': seq<Block>, w': World, x: int) {
    && x in w.owner && w.owner[x].Free() && |d'| == |d| && 0 <= x < |d|
    && w'.owner == w.owner[x := Held] && w'.files == w.files
    && d'[x] == ZeroBlock() && SameOutsideFree(d, d', w.owner)
  }

  lemma TakeStep(d: seq<Block>, lo: int, head: int, w: World, ino: int, b: int, n: int, j: int, t: int,
                 d0: seq<Block>, w0: World, x: int, d': seq<Block>, head': int, w': World)
    requires 0 <= n < MAX_BLOCKS && 0 <= j
    requires Partly(d, lo, head, w, ino, b, n, j, t, d0, w0)
    requires Taken(d, w, d', w', x) && WorldOk(d', lo, head', w')
    ensures Partly(d', lo, head', w', ino, b, n, j, t + 1, d0, w0)
    ensures x in w0.owner && w0.owner[x].Free()
    ensures forall y :: y in w.owner && w.owner[y].At? ==>
      y in w'.owner && w'.owner[y] == w.owner[y] && 0 <= y < |d| && d'[y] == d[y]
  {
    hide FreeListOk, TreesOk, Evolves, GrownFrom, Shaped, NumFree;
    EvolvesTaken(d0, w0, d, w, ino, b, x);
    NumFreeStep(w.owner, x, Held);
    TreesFrame(d, d', w, ino);
    EvolvesAllocate(d0, w0, d, w, d', w', ino, b, x);
  }

  lemma EvolvesTaken(d0: seq<Block>, w0: World, d: seq<Block>, w: World, ino: int, b: int, x: int)
    requires 0 <= ino < |w0.files| && Evolves(d0, w0, d, w, ino, b) && x in w.owner && w.owner[x].Free()
    ensures x in w0.owner && w0.owner[x].Free() && b in w.owner
  {
  }

  /** Takes a zeroed free block; the append to `ino` stays where it was. */
  method TakeIndexBlock(disk: Disk, ghost ino: int, ghost b: int, ghost n: int, ghost j: int, ghost t: int,
                        ghost d0: seq<Block>, ghost w0: World)
    returns (x: int)
    requires 0 <= n < MAX_BLOCKS && 0 <= j
    requires Partly(disk.D(), disk.inodeBlocks + 1, disk.freelistHead, disk.w, ino, b, n, j, t, d0, w0)
    modifies disk`freelistHead, disk`w, disk.store
    ensures Partly(disk.D(), disk.inodeBlocks + 1, disk.freelistHead, disk.w, ino, b, n, j,
                   if x == -1 then t else t + 1, d0, w0)
    ensures x == -1 ==> NumFree(disk.w.owner) == 0 && disk.w == old(disk.w)
    ensures x != -1 ==> Taken(old(disk.D()), old(disk.w), disk.D(), disk.w, x)
    ensures x != -1 ==> x in w0.owner && w0.owner[x].Free()
    ensures forall y :: y in old(disk.w.owner) && old(disk.w.owner)[y].At? ==>
      && y in disk.w.owner && disk.w.owner[y] == old(disk.w.owner)[y]
      && 0 <= y < |disk.D()| && disk.D()[y] == old(disk.D())[y]
  {
    ghost var d, head, w := disk.D(), disk.freelistHead, disk.w;
    EmptyIff(d, head, w.chain, w.owner);
    hide WorldOk, TreesOk, Evolves, NumFree, Shaped, GrownFrom;
    x := disk.AllocateDataBlock();
    if x != -1 {
      assert Taken(d, w, disk.D(), disk.w, x);
      TakeStep(d, disk.inodeBlocks + 1, head, w, ino, b, n, j, t, d0, w0, x, disk.D(), disk.freelistHead, disk.w);
    }
  }

  lemma TopDown(n: int)
    requires 0 <= n < MAX_BLOCKS && 1 <= Region(n)
    ensures Down(n - Start(Region(n)), Region(n)) == 0
  {
    AlignedValues(n - Start(Region(n)));
  }

  /** Takes the root of region `Region(n)`. */
  method TakeRoot(disk: Disk, ghost ino: int, ghost b: int, ghost n: int, ghost d0: seq<Block>, ghost w0: World)
    returns (x: int)
    requires 0 <= n < MAX_BLOCKS && 1 <= Region(n) && Aligned(n - Start(Region(n)), Region(n))
    requires Partly(disk.D(), disk.inodeBlocks + 1, disk.freelistHead, disk.w, ino, b, n, Region(n) + 1, 0, d0, w0)
    modifies disk`freelistHead, disk`w, disk.store
    ensures x == -1 ==>
      && Partly(disk.D(), disk.inodeBlocks + 1, disk.freelistHead, disk.w, ino, b, n, Region(n) + 1, 0, d0, w0)
      && NumFree(disk.w.owner) == 0 && disk.w == old(disk.w)
    ensures x != -1 ==>
      && Partly(disk.D(), disk.inodeBlocks + 1, disk.freelistHead, disk.w, ino, b, n, Region(n), 1, d0, w0)
      && disk.w.files[ino][Region(n)][Region(n)] == [x]
  {
    hide WorldOk, TreesOk, Evolves, Shaped, NumFree, SameOutsideFree;
    TopDown(n);
    LevelGrows(w0.files[ino], n, Region(n), disk.w.files[ino], 0);
    x := TakeIndexBlock(disk, ino, b, n, Region(n) + 1, 0, d0, w0);
    if x != -1 {
      ghost var d, r := disk.D(), Region(n);
      assert LinkedAt(d, disk.w.files[ino], r, r, x, d);
      AttachStep(d, disk.inodeBlocks + 1, disk.freelistHead, disk.w, ino, b, n, r, 1, d0, w0, x, d);
      disk.w := Attach(disk.w, ino, r, r, x);
    }
  }

  /** Index block `p` is the `i`-th of level `j` of region `r` of inode `ino`. */
  ghost predicate Holds(d: seq<Block>, lo: int, w: World, ino: int, r: int, j: int, i: int, p: int, buffer: Block) {
    && 0 <= ino < |w.files| && 0 <= r < 4 && 0 <= j < 4 && 0 <= i < |w.files[ino][r][j]|
    && p == w.files[ino][r][j][i] && p in w.owner && w.owner[p] == At(ino, r, j, i)
    && 0 < lo <= p < |d| && buffer == d[p]
  }

  /** Reads index block `p`, the `i`-th of level `j` of region `r`. */
  method ReadIndexBlock(disk: Disk, p: int, ghost ino: int, ghost r: int, ghost j: int, ghost i: int)
    returns (buffer: Block)
    requires disk.Sound() && 0 <= ino < |disk.w.files| && 0 <= r < 4 && 0 <= j < 4
    requires 0 <= i < |disk.w.files[ino][r][j]| && p == disk.w.files[ino][r][j][i]
    ensures Holds(disk.D(), disk.inodeBlocks + 1, disk.w, ino, r, j, i, p, buffer)
  {
    assert disk.w.owner[disk.w.files[ino][r][j][i]] == At(ino, r, j, i);
    var _, b := disk.ReadDataBlock(p);
    return b;
  }

  /** Writing the new index block `x` into its parent `p`. */
  lemma LinkStep(d: seq<Block>, lo: int, head: int, w: World, ino: int, b: int, n: int, j: int, t: int,
                 d0: seq<Block>, w0: World, x: int, p: int, buffer: Block, s: int)
    requires 0 <= n < MAX_BLOCKS && 1 <= j < Region(n) && Aligned(n - Start(Region(n)), j)
    requires Partly(d, lo, head, w, ino, b, n, j + 1, t, d0, w0)
    requires Holds(d, lo, w, ino, Region(n), j + 1, Down(n - Start(Region(n)), j + 1), p, buffer)
    requires s == Down(n - Start(Region(n)), j) % K
    requires x in w.owner && w.owner[x] == Held && d[x] == ZeroBlock()
    requires x in w0.owner && w0.owner[x].Free()
    ensures
      var r := Region(n);
      var d', w' := d[p := buffer[s := x]], Attach(w, ino, r, j, x);
      && Partly(d', lo, head, w', ino, b, n, j, t, d0, w0)
      && Holds(d', lo, w', ino, r, j + 1, Down(n - Start(r), j + 1), p, buffer[s := x])
      && (forall k :: j < k < 4 ==> w'.files[ino][r][k] == w.files[ino][r][k])
  {
    hide Partly, Aligned, Region, Start, Down, Attach, LinkedAt, Holds;
    var r := Region(n);
    PartlySize(d, lo, head, w, ino, b, n, j, t, d0, w0);
    DownNext(n - Start(r), j);
    LinkHere(d, lo, w, ino, r, j, p, buffer, x);
    HoldsNext(d, lo, w, ino, r, j, Down(n - Start(r), j + 1), p, buffer, s, x);
    AttachStep(d, lo, head, w, ino, b, n, j, t, d0, w0, x, d[p := buffer[s := x]]);
  }

  /** The parent stays where it is when a child is attached below it. */
  lemma HoldsNext(d: seq<Block>, lo: int, w: World, ino: int, r: int, j: int, i: int, p: int, buffer: Block, s: int, x: int)
    requires 0 <= j < 3 && Holds(d, lo, w, ino, r, j + 1, i, p, buffer) && 0 <= s < K
    requires x in w.owner && w.owner[x] == Held
    ensures
      var d', w' := d[p := buffer[s := x]], Attach(w, ino, r, j, x);
      && Holds(d', lo, w', ino, r, j + 1, i, p, buffer[s := x])
      && (forall k :: j < k < 4 ==> w'.files[ino][r][k] == w.files[ino][r][k])
  {
  }

  lemma LinkHere(d: seq<Block>, lo: int, w: World, ino: int, r: int, j: int, p: int, buffer: Block, x: int)
    requires 0 <= ino < |w.files| && 0 <= j < r < 4
    requires Holds(d, lo, w, ino, r, j + 1, |w.files[ino][r][j]| / K, p, buffer)
    ensures LinkedAt(d, w.files[ino], r, j, x, d[p := buffer[|w.files[ino][r][j]| % K := x]])
  {
  }

  lemma PartlySize(d: seq<Block>, lo: int, head: int, w: World, ino: int, b: int, n: int, j: int, t: int,
                   d0: seq<Block>, w0: World)
    requires 0 <= n < MAX_BLOCKS && 1 <= j <= Region(n) && Aligned(n - Start(Region(n)), j)
    requires Partly(d, lo, head, w, ino, b, n, j + 1, t, d0, w0)
    ensures 0 <= ino < |w.files| && |w.files[ino][Region(n)][j]| == Down(n - Start(Region(n)), j)
  {
    hide WorldOk, TreesOk, Evolves, Shaped, NumFree, Aligned, GrownFrom;
    LevelGrows(w0.files[ino], n, j, w.files[ino], 0);
  }

  lemma DownNext(c: int, j: int)
    requires 0 <= c && 0 <= j
    ensures Down(c, j + 1) == Down(c, j) / K
  {
  }

  /** Takes a new index block for level `j` and links it from slot `s` of block `p`. */
  method GrowIndex(disk: Disk, p: int, buffer: Block, s: int, ghost ino: int, ghost b: int, ghost n: int,
                   ghost j: int, ghost t: int, ghost d0: seq<Block>, ghost w0: World)
    returns (x: int, buffer': Block)
    requires 0 <= n < MAX_BLOCKS && 1 <= j < Region(n) && Aligned(n - Start(Region(n)), j)
    requires Partly(disk.D(), disk.inodeBlocks + 1, disk.freelistHead, disk.w, ino, b, n, j + 1, t, d0, w0)
    requires Holds(disk.D(), disk.inodeBlocks + 1, disk.w, ino, Region(n), j + 1, Down(n - Start(Region(n)), j + 1), p, buffer)
    requires s == Down(n - Start(Region(n)), j) % K
    modifies disk`freelistHead, disk`w, disk.store
    ensures x == -1 ==>
      && Partly(disk.D(), disk.inodeBlocks + 1, disk.freelistHead, disk.w, ino, b, n, j + 1, t, d0, w0)
      && NumFree(disk.w.owner) == 0 && disk.w == old(disk.w)
    ensures x != -1 ==>
      && Partly(disk.D(), disk.inodeBlocks + 1, disk.freelistHead, disk.w, ino, b, n, j, t + 1, d0, w0)
      && Holds(disk.D(), disk.inodeBlocks + 1, disk.w, ino, Region(n), j + 1, Down(n - Start(Region(n)), j + 1), p, buffer')
      && (forall k :: j < k < 4 ==> disk.w.files[ino][Region(n)][k] == old(disk.w.files[ino][Region(n)][k]))
  {
    hide WorldOk, SameOutsideFree, Aligned, Region, Start, Down, Partly;
    x := TakeIndexBlock(disk, ino, b, n, j + 1, t, d0, w0);
    buffer' := buffer;
    if x != -1 {
      ghost var d, w := disk.D(), disk.w;
      buffer' := buffer[s := x];
      var _ := disk.WriteDataBlock(p, buffer');
      LinkStep(d, disk.inodeBlocks + 1, disk.freelistHead, w, ino, b, n, j, t + 1, d0, w0, x, p, buffer, s);
      disk.w := Attach(w, ino, Region(n), j, x);
    }
  }

  /** The root pointer of region `r`. */
  function Root(rec: InodeRec, r: int): int {
    if r == 1 then rec.single else if r == 2 then rec.double else rec.triple
  }

  /** Writing the data block `b` into its index block `p`. */
  lemma LeafStep(d: seq<Block>, lo: int, head: int, w: World, ino: int, b: int, n: int, t: int,
                 d0: seq<Block>, w0: World, p: int, buffer: Block, s: int)
    requires 0 <= n < MAX_BLOCKS && 1 <= Region(n)
    requires Partly(d, lo, head, w, ino, b, n, 1, t, d0, w0)
    requires Holds(d, lo, w, ino, Region(n), 1, Down(n - Start(Region(n)), 1), p, buffer)
    requires s == (n - Start(Region(n))) % K
    ensures
      var r := Region(n);
      var d', w' := d[p := buffer[s := b]], Attach(w, ino, r, 0, b);
      && WorldOk(d', lo, head, w') && TreesOk(d', w'.files[ino])
      && Evolves(d0, w0, d', w', ino, b) && Grown(w0.files[ino], n, b, w'.files[ino])
      && NumFree(w0.owner) == NumFree(w'.owner) + t
      && (forall k :: 1 <= k < 4 ==> w'.files[ino][r][k] == w.files[ino][r][k])
  {
    var r, d' := Region(n), d[p := buffer[s := b]];
    hide WorldOk, TreesOk, Evolves, Shaped, NumFree, Region, Start;
    LevelGrows(w0.files[ino], n, 0, w.files[ino], b);
    assert Down(n - Start(r), 1) == (n - Start(r)) / K;
    AttachOk(d, lo, head, w, ino, r, 0, b, d');
    EvolvesAttach(d0, w0, d, w, d', ino, b, r, 0, b);
    NumFreeSame(w.owner, b, At(ino, r, 0, |w.files[ino][r][0]|));
  }

  lemma AppendDone(d: seq<Block>, w: World, rec: InodeRec, d': seq<Block>, w': World, rec': InodeRec,
                   ino: int, b: int, t: int)
    requires 0 <= ino < |w.files| && FileOk(d, rec, w.files[ino]) && rec.blocks < MAX_BLOCKS
    requires Evolves(d, w, d', w', ino, b) && TreesOk(d', w'.files[ino])
    requires Grown(w.files[ino], rec.blocks, b, w'.files[ino])
    requires rec'.blocks == rec.blocks + 1 && SameAttributes(rec, rec')
    requires
      var r := Region(rec.blocks);
      && (forall q :: 1 <= q < 4 && q != r ==> Root(rec', q) == Root(rec, q))
      && (if r == 0 then rec'.direct == rec.direct[rec.blocks := b]
          else rec'.direct == rec.direct && Root(rec', r) == Entry(w'.files[ino][r][r], 0))
    requires NumFree(w.owner) == NumFree(w'.owner) + t && t == GrowsFrom(rec.blocks, 1)
    ensures Appended(d, w, rec, d', w', rec', ino, b)
  {
    hide TreesOk, Evolves, NumFree, Shaped, Down, GrowsFrom, Growth;
    assert |w'.files| == |w.files| by {
      EvolvesSize(d, w, d', w', ino, b);
    }
    GrownShape(w.files[ino], rec.blocks, b, w'.files[ino]);
    DirectSize(w.files[ino], rec.blocks);
    GrowthValue(rec.blocks);
    var q := Region(rec.blocks);
    assert Root(rec', 1) == Entry(w'.files[ino][1][1], 0);
    assert Root(rec', 2) == Entry(w'.files[ino][2][2], 0);
    assert Root(rec', 3) == Entry(w'.files[ino][3][3], 0);
  }

  lemma DirectSize(f: FileMap, n: int)
    requires 0 <= n <= MAX_BLOCKS && Shaped(f, n)
    ensures |f[0][0]| == if n < DIRECT then n else DIRECT
  {
    assert |f[0][0]| == Need(0, 0, n);
  }

  lemma EvolvesSize(d: seq<Block>, w: World, d': seq<Block>, w': World, ino: int, b: int)
    requires 0 <= ino < |w.files| && Evolves(d, w, d', w', ino, b)
    ensures |w'.files| == |w.files|
  {
  }

  /** The index block that the append is under, at each level that has grown. */
  lemma GrownSize(f: FileMap, n: int, j: int, f': FileMap, k: int)
    requires 0 <= n < MAX_BLOCKS && 0 <= j <= k <= Region(n) && GrownFrom(f, n, j, f')
    ensures |f'[Region(n)][k]| == Down(n - Start(Region(n)), k) + 1
  {
  }

  /** Level `j` needs no new block. */
  lemma SkipLevel(d: seq<Block>, lo: int, head: int, w: World, ino: int, b: int, n: int, j: int, t: int,
                  d0: seq<Block>, w0: World)
    requires 0 <= n < MAX_BLOCKS && 0 <= j <= Region(n) && !Aligned(n - Start(Region(n)), j)
    requires Partly(d, lo, head, w, ino, b, n, j + 1, t, d0, w0)
    ensures Partly(d, lo, head, w, ino, b, n, j, t, d0, w0) && Grows(n, j) == 0
  {
    hide WorldOk, TreesOk, Evolves, NumFree, Shaped, GrownFrom;
    NotGrown(w0.files[ino], n, j, w.files[ino]);
  }

  /** The pointers of an inode in the middle of an append to region `r`. */
  ghost predicate RootReady(rec: InodeRec, f: FileMap, rec': InodeRec)
    requires 0 <= rec.blocks < MAX_BLOCKS
  {
    var r := Region(rec.blocks);
    && rec'.blocks == rec.blocks && SameAttributes(rec, rec') && rec'.direct == rec.direct
    && (forall q :: 1 <= q < 4 && q != r ==> Root(rec', q) == Root(rec, q))
    && Root(rec', r) == Entry(f[r][r], 0)
  }

  /** The levels above `j` have grown where they had to. */
  lemma StuckSizes(f: FileMap, n: int, j: int, f': FileMap)
    requires 0 <= n < MAX_BLOCKS && 1 <= j <= Region(n) && Shaped(f, n) && GrownFrom(f, n, j + 1, f')
    ensures OneMore(f, f', Region(n)) && f'[Region(n)][0] == f[Region(n)][0]
    ensures IndexSize(f', Region(n)) == IndexSize(f, Region(n)) + GrowsFrom(n, j + 1)
  {
    hide Need, Start, Aligned, Down, Region, Shaped;
    var r := Region(n);
    GrowsFromTop(n);
    forall k | 0 <= k < 4 ensures |f'[r][k]| == |f[r][k]| + if j < k <= r then Grows(n, k) else 0 {
      NeedStep(n, r, k);
      ShapedAt(f, n, r, k);
      GrowsValue(n, k);
    }
  }

  lemma ShapedAt(f: FileMap, n: int, r: int, j: int)
    requires Shaped(f, n) && 0 <= r < 4 && 0 <= j < 4
    ensures |f[r][j]| == Need(r, j, n)
  {
  }

  lemma GrowsValue(n: int, k: int)
    requires 0 <= n < MAX_BLOCKS && 0 <= k
    ensures Grows(n, k) == if Aligned(n - Start(Region(n)), k) then 1 else 0
  {
  }

  /** The pointers stay right when an append stops half way. */
  lemma StuckRoots(f: FileMap, rec: InodeRec, j: int, f': FileMap, rec': InodeRec)
    requires 0 <= rec.blocks < MAX_BLOCKS && 1 <= j <= Region(rec.blocks)
    requires Shaped(f, rec.blocks) && GrownFrom(f, rec.blocks, j + 1, f')
    requires PointersOk(rec, f) && RootReady(rec, f', rec')
    ensures Rooted(rec', f')
  {
    hide Need, Start, Aligned, Down, Shaped;
    var n, r := rec.blocks, Region(rec.blocks);
    DirectSize(f, n);
    forall q | 1 <= q < 4 ensures |f'[q][q]| <= 1 {
      ShapedAt(f, n, q, q);
      OneRootNeed(n, q);
      TopDown(n);
    }
    forall q, k | 0 <= q < k < 4 ensures f'[q][k] == [] {
      ShapedAt(f, n, q, k);
      NoLevel(n, q, k);
    }
    assert Root(rec', 1) == Entry(f'[1][1], 0) && Root(rec', 2) == Entry(f'[2][2], 0) && Root(rec', 3) == Entry(f'[3][3], 0);
  }

  lemma NoLevel(n: int, r: int, j: int)
    requires 0 <= r < j < 4
    ensures Need(r, j, n) == 0
  {
  }

  lemma OneRootNeed(n: int, r: int)
    requires 0 <= n <= MAX_BLOCKS && 1 <= r < 4
    ensures 0 <= Need(r, r, n) <= 1
  {
    SmallUp(DataIn(r, n));
  }

  /** The disk filled up while level `j` was waiting for a block. */
  lemma AppendStuck(d: seq<Block>, lo: int, head: int, w: World, rec: InodeRec, rec': InodeRec, ino: int, b: int,
                    j: int, t: int, d0: seq<Block>, w0: World)
    requires 0 <= rec.blocks < MAX_BLOCKS && 1 <= j <= Region(rec.blocks) && Grows(rec.blocks, j) == 1
    requires Partly(d, lo, head, w, ino, b, rec.blocks, j + 1, t, d0, w0)
    requires NumFree(w.owner) == 0 && t == GrowsFrom(rec.blocks, j + 1)
    requires FileOk(d0, rec, w0.files[ino]) && RootReady(rec, w.files[ino], rec')
    ensures AppendFailed(d0, w0, rec, d, w, rec', ino, b)
  {
    hide WorldOk, TreesOk, Evolves, NumFree, Shaped, Down, Growth, PointersOk, Rooted;
    var n := rec.blocks;
    StuckRoots(w0.files[ino], rec, j, w.files[ino], rec');
    StuckSizes(w0.files[ino], n, j, w.files[ino]);
    GrowthValue(n);
    assert GrowsFrom(n, j) > t;
    assert GrowsFrom(n, 1) >= GrowsFrom(n, 2) && (Region(n) >= 2 ==> GrowsFrom(n, 2) >= GrowsFrom(n, 3));
  }

  lemma AppendStart(d: seq<Block>, lo: int, head: int, w: World, rec: InodeRec, ino: int, b: int)
    requires AppendReady(d, lo, head, w, rec, ino, b) && 0 <= rec.blocks < MAX_BLOCKS
    ensures Partly(d, lo, head, w, ino, b, rec.blocks, Region(rec.blocks) + 1, 0, d, w)
    ensures 1 <= Region(rec.blocks) ==> RootReady(rec, w.files[ino], rec)
  {
  }

  /** A file in order has its trees on its pointers. */
  lemma FileRooted(d: seq<Block>, rec: InodeRec, f: FileMap)
    requires FileOk(d, rec, f)
    ensures Rooted(rec, f) && TreesOk(d, f)
  {
    hide TreesOk, Need, PointersOk, Shaped;
    DirectSize(f, rec.blocks);
    forall r | 1 <= r < 4 ensures |f[r][r]| <= 1 {
      ShapedAt(f, rec.blocks, r, r);
      OneRootNeed(rec.blocks, r);
    }
    forall r, j | 0 <= r < j < 4 ensures f[r][j] == [] {
      ShapedAt(f, rec.blocks, r, j);
      NoLevel(rec.blocks, r, j);
    }
  }

  /** A full map has no room for another block. */
  lemma AppendFull(d: seq<Block>, lo: int, head: int, w: World, rec: InodeRec, ino: int, b: int)
    requires AppendReady(d, lo, head, w, rec, ino, b) && rec.blocks >= MAX_BLOCKS
    ensures AppendFailed(d, w, rec, d, w, rec, ino, b)
  {
    hide WorldOk, TreesOk, NumFree, Growth, Rooted;
    FileRooted(d, rec, w.files[ino]);
  }

  /** Puts `b` in slot `s` of the index block `p` and counts it. */
  method WriteLeaf(disk: Disk, node: Inode, p: int, s: int, b: int, ghost ino: int, ghost t: int,
                   ghost d0: seq<Block>, ghost w0: World, ghost rec: InodeRec)
    returns (ok: bool)
    requires 0 <= rec.blocks < MAX_BLOCKS && 1 <= Region(rec.blocks)
    requires Partly(disk.D(), disk.inodeBlocks + 1, disk.freelistHead, disk.w, ino, b, rec.blocks, 1, t, d0, w0)
    requires FileOk(d0, rec, w0.files[ino]) && t == GrowsFrom(rec.blocks, 1)
    requires RootReady(rec, disk.w.files[ino], node.Rec())
    requires
      var c := rec.blocks - Start(Region(rec.blocks));
      && Down(c, 1) < |disk.w.files[ino][Region(rec.blocks)][1]|
      && p == disk.w.files[ino][Region(rec.blocks)][1][Down(c, 1)] && s == c % K
    modifies disk`w, disk.store, node`blocks
    ensures ok && disk.Sound() && Appended(d0, w0, rec, disk.D(), disk.w, node.Rec(), ino, b)
  {
    hide WorldOk, TreesOk, Evolves, Shaped, NumFree, Region, Start, Down, FileOk, GrownFrom, GrowsFrom, Growth,
         Appended;
    ghost var r := Region(rec.blocks);
    var leaf := ReadIndexBlock(disk, p, ino, r, 1, Down(rec.blocks - Start(r), 1));
    ghost var d, w := disk.D(), disk.w;
    ok := disk.WriteDataBlock(p, leaf[s := b]);
    LeafStep(d, disk.inodeBlocks + 1, disk.freelistHead, w, ino, b, rec.blocks, t, d0, w0, p, leaf, s);
    disk.w := Attach(w, ino, r, 0, b);
    node.blocks := node.blocks + 1;
    AppendDone(d0, w0, rec, disk.D(), disk.w, node.Rec(), ino, b, t);
  }

  method AddSingle(disk: Disk, node: Inode, ghost ino: int, b: int) returns (ok: bool)
    requires AppendReady(disk.D(), disk.inodeBlocks + 1, disk.freelistHead, disk.w, node.Rec(), ino, b)
    requires node.blocks < MAX_BLOCKS && Region(node.blocks) == 1
    modifies disk`freelistHead, disk`w, disk.store, node
    ensures disk.Sound()
    ensures ok ==> Appended(old(disk.D()), old(disk.w), old(node.Rec()), disk.D(), disk.w, node.Rec(), ino, b)
    ensures !ok ==> AppendFailed(old(disk.D()), old(disk.w), old(node.Rec()), disk.D(), disk.w, node.Rec(), ino, b)
  {
    hide WorldOk, TreesOk, Evolves, Shaped, NumFree, Growth, GrownFrom, Appended, AppendFailed;
    ghost var d0, w0, rec := disk.D(), disk.w, node.Rec();
    var l := node.blocks - DIRECT;
    AppendStart(d0, disk.inodeBlocks + 1, disk.freelistHead, w0, rec, ino, b);
    AlignedValues(l);
    assert GrowsFrom(rec.blocks, 2) == 0 && GrowsFrom(rec.blocks, 1) == Grows(rec.blocks, 1);
    if l == 0 {
      var x := TakeRoot(disk, ino, b, rec.blocks, d0, w0);
      if x == -1 {
        AppendStuck(disk.D(), disk.inodeBlocks + 1, disk.freelistHead, disk.w, rec, node.Rec(), ino, b, 1, 0, d0, w0);
        return false;
      }
      node.single := x;
    } else {
      SkipLevel(disk.D(), disk.inodeBlocks + 1, disk.freelistHead, disk.w, ino, b, rec.blocks, 1, 0, d0, w0);
    }
    GrownSize(w0.files[ino], rec.blocks, 1, disk.w.files[ino], 1);
    ok := WriteLeaf(disk, node, node.single, l, b, ino, GrowsFrom(rec.blocks, 1), d0, w0, rec);
  }

  method AddDirect(disk: Disk, node: Inode, ghost ino: int, b: int) returns (ok: bool)
    requires AppendReady(disk.D(), disk.inodeBlocks + 1, disk.freelistHead, disk.w, node.Rec(), ino, b)
    requires node.blocks < MAX_BLOCKS && Region(node.blocks) == 0
    modifies disk`w, node
    ensures ok && disk.Sound()
    ensures Appended(old(disk.D()), old(disk.w), old(node.Rec()), disk.D(), disk.w, node.Rec(), ino, b)
  {
    hide WorldOk, TreesOk, Evolves, Shaped, NumFree, Growth, Appended;
    ghost var d, w, rec := disk.D(), disk.w, node.Rec();
    AppendStart(d, disk.inodeBlocks + 1, disk.freelistHead, w, rec, ino, b);
    DirectStep(d, disk.inodeBlocks + 1, disk.freelistHead, w, ino, b, rec.blocks);
    node.direct := node.direct[node.blocks := b];
    node.blocks := node.blocks + 1;
    disk.w := Attach(w, ino, 0, 0, b);
    AppendDone(d, w, rec, d, disk.w, node.Rec(), ino, b, 0);
    return true;
  }

  lemma DirectStep(d: seq<Block>, lo: int, head: int, w: World, ino: int, b: int, n: int)
    requires 0 <= n < MAX_BLOCKS && Region(n) == 0 && Partly(d, lo, head, w, ino, b, n, 1, 0, d, w)
    ensures
      var w' := Attach(w, ino, 0, 0, b);
      && WorldOk(d, lo, head, w') && TreesOk(d, w'.files[ino])
      && Evolves(d, w, d, w', ino, b) && Grown(w.files[ino], n, b, w'.files[ino])
      && NumFree(w.owner) == NumFree(w'.owner)
  {
    hide TreesOk, Shaped, NumFree, Region, Start;
    LevelGrows(w.files[ino], n, 0, w.files[ino], b);
    AttachOk(d, lo, head, w, ino, 0, 0, b, d);
    EvolvesAttach(d, w, d, w, d, ino, b, 0, 0, b);
    NumFreeSame(w.owner, b, At(ino, 0, 0, |w.files[ino][0][0]|));
  }

  /** Below an index block `parent` of level 2: grow level 1 if needed, then the leaf. */
  method AddUnder(disk: Disk, node: Inode, parent: int, i: int, s: int, b: int, ghost ino: int, ghost t: int,
                  ghost d0: seq<Block>, ghost w0: World, ghost rec: InodeRec)
    returns (ok: bool)
    requires 0 <= rec.blocks < MAX_BLOCKS && 2 <= Region(rec.blocks)
    requires Partly(disk.D(), disk.inodeBlocks + 1, disk.freelistHead, disk.w, ino, b, rec.blocks, 2, t, d0, w0)
    requires FileOk(d0, rec, w0.files[ino]) && t == GrowsFrom(rec.blocks, 2)
    requires RootReady(rec, disk.w.files[ino], node.Rec())
    requires
      var c := rec.blocks - Start(Region(rec.blocks));
      && Down(c, 2) < |disk.w.files[ino][Region(rec.blocks)][2]|
      && parent == disk.w.files[ino][Region(rec.blocks)][2][Down(c, 2)]
      && i == Down(c, 1) % K && s == c % K
    modifies disk`freelistHead, disk`w, disk.store, node`blocks
    ensures disk.Sound()
    ensures ok ==> Appended(d0, w0, rec, disk.D(), disk.w, node.Rec(), ino, b)
    ensures !ok ==> AppendFailed(d0, w0, rec, disk.D(), disk.w, node.Rec(), ino, b)
  {
    hide WorldOk, TreesOk, Evolves, Shaped, NumFree, Growth, GrownFrom, Appended, AppendFailed, FileOk, Region,
         Start, DataIn;
    ghost var n, r := rec.blocks, Region(rec.blocks);
    ghost var c := n - Start(r);
    GrowsFromTop(n);
    AlignedOne(c);
    var slots := ReadIndexBlock(disk, parent, ino, r, 2, Down(c, 2));
    if s == 0 {
      var x;
      x, slots := GrowIndex(disk, parent, slots, i, ino, b, n, 1, t, d0, w0);
      if x == -1 {
        AppendStuck(disk.D(), disk.inodeBlocks + 1, disk.freelistHead, disk.w, rec, node.Rec(), ino, b, 1, t, d0, w0);
        return false;
      }
    } else {
      SkipLevel(disk.D(), disk.inodeBlocks + 1, disk.freelistHead, disk.w, ino, b, n, 1, t, d0, w0);
    }
    GrownSize(w0.files[ino], n, 1, disk.w.files[ino], 1);
    ChildOf(disk.D(), disk.inodeBlocks + 1, disk.freelistHead, disk.w, ino, r, 1, Down(c, 1));
    var p := slots[i];
    if p <= 0 {
      return false;
    }
    ok := WriteLeaf(disk, node, p, s, b, ino, GrowsFrom(n, 1), d0, w0, rec);
  }

  lemma AlignedOne(c: int)
    requires 0 <= c
    ensures Aligned(c, 1) <==> c % K == 0
    ensures Down(c, 2) == Down(c, 1) / K
  {
  }

  method AddDouble(disk: Disk, node: Inode, ghost ino: int, b: int) returns (ok: bool)
    requires AppendReady(disk.D(), disk.inodeBlocks + 1, disk.freelistHead, disk.w, node.Rec(), ino, b)
    requires node.blocks < MAX_BLOCKS && Region(node.blocks) == 2
    modifies disk`freelistHead, disk`w, disk.store, node
    ensures disk.Sound()
    ensures ok ==> Appended(old(disk.D()), old(disk.w), old(node.Rec()), disk.D(), disk.w, node.Rec(), ino, b)
    ensures !ok ==> AppendFailed(old(disk.D()), old(disk.w), old(node.Rec()), disk.D(), disk.w, node.Rec(), ino, b)
  {
    hide WorldOk, TreesOk, Evolves, Down, Aligned, DataIn, Need, GrownFrom, Shaped, NumFree, Growth, Appended,
         AppendFailed;
    ghost var d0, w0, rec := disk.D(), disk.w, node.Rec();
    var l := node.blocks - DIRECT - K;
    AppendStart(d0, disk.inodeBlocks + 1, disk.freelistHead, w0, rec, ino, b);
    AlignedValues(l);
    GrowsFromTop(rec.blocks);
    if l == 0 {
      var x := TakeRoot(disk, ino, b, rec.blocks, d0, w0);
      if x == -1 {
        AppendStuck(disk.D(), disk.inodeBlocks + 1, disk.freelistHead, disk.w, rec, node.Rec(), ino, b, 2, 0, d0, w0);
        return false;
      }
      node.double := x;
    } else {
      SkipLevel(disk.D(), disk.inodeBlocks + 1, disk.freelistHead, disk.w, ino, b, rec.blocks, 2, 0, d0, w0);
    }
    var i, s := l / K, l % K;
    GrownSize(w0.files[ino], rec.blocks, 2, disk.w.files[ino], 2);
    ok := AddUnder(disk, node, node.double, i, s, b, ino, GrowsFrom(rec.blocks, 2), d0, w0, rec);
  }

  lemma TripleParts(c: int)
    requires 0 <= c < K * K * K
    ensures Down(c, 1) == c / K && Down(c, 2) == c / (K * K) == c / K / K < K && Down(c, 3) == 0
    ensures Aligned(c, 2) <==> c % (K * K) == 0
    ensures Aligned(c, 3) <==> c == 0
  {
    AlignedValues(c);
  }

  /** Below the root of the triple indirect tree: grow level 2 if needed, then below it. */
  method AddUnderRoot(disk: Disk, node: Inode, l: int, b: int, ghost ino: int, ghost t: int,
                      ghost d0: seq<Block>, ghost w0: World, ghost rec: InodeRec)
    returns (ok: bool)
    requires 0 <= rec.blocks < MAX_BLOCKS && Region(rec.blocks) == 3 && l == rec.blocks - Start(3)
    requires Partly(disk.D(), disk.inodeBlocks + 1, disk.freelistHead, disk.w, ino, b, rec.blocks, 3, t, d0, w0)
    requires FileOk(d0, rec, w0.files[ino]) && t == GrowsFrom(rec.blocks, 3)
    requires RootReady(rec, disk.w.files[ino], node.Rec()) && |disk.w.files[ino][3][3]| == 1
    modifies disk`freelistHead, disk`w, disk.store, node`blocks
    ensures disk.Sound()
    ensures ok ==> Appended(d0, w0, rec, disk.D(), disk.w, node.Rec(), ino, b)
    ensures !ok ==> AppendFailed(d0, w0, rec, disk.D(), disk.w, node.Rec(), ino, b)
  {
    hide WorldOk, TreesOk, Evolves, Shaped, NumFree, Growth, GrownFrom, Appended, AppendFailed, FileOk, Region,
         DataIn, Down, Aligned, Need;
    ghost var n := rec.blocks;
    TripleParts(l);
    GrowsFromTop(n);
    var root := ReadIndexBlock(disk, node.triple, ino, 3, 3, 0);
    var q, i, s := l / (K * K), (l / K) % K, l % K;
    if l % (K * K) == 0 {
      var x;
      x, root := GrowIndex(disk, node.triple, root, q, ino, b, n, 2, t, d0, w0);
      if x == -1 {
        AppendStuck(disk.D(), disk.inodeBlocks + 1, disk.freelistHead, disk.w, rec, node.Rec(), ino, b, 2, t, d0, w0);
        return false;
      }
    } else {
      SkipLevel(disk.D(), disk.inodeBlocks + 1, disk.freelistHead, disk.w, ino, b, n, 2, t, d0, w0);
    }
    GrownSize(w0.files[ino], n, 2, disk.w.files[ino], 2);
    ChildOf(disk.D(), disk.inodeBlocks + 1, disk.freelistHead, disk.w, ino, 3, 2, q);
    ok := AddUnder(disk, node, root[q], i, s, b, ino, GrowsFrom(n, 2), d0, w0, rec);
  }

  method AddTriple(disk: Disk, node: Inode, ghost ino: int, b: int) returns (ok: bool)
    requires AppendReady(disk.D(), disk.inodeBlocks + 1, disk.freelistHead, disk.w, node.Rec(), ino, b)
    requires node.blocks < MAX_BLOCKS && Region(node.blocks) == 3
    modifies disk`freelistHead, disk`w, disk.store, node
    ensures disk.Sound()
    ensures ok ==> Appended(old(disk.D()), old(disk.w), old(node.Rec()), disk.D(), disk.w, node.Rec(), ino, b)
    ensures !ok ==> AppendFailed(old(disk.D()), old(disk.w), old(node.Rec()), disk.D(), disk.w, node.Rec(), ino, b)
  {
    hide WorldOk, TreesOk, Evolves, Down, Aligned, DataIn, Need, GrownFrom, Shaped, NumFree, Growth, Appended,
         AppendFailed;
    ghost var d0, w0, rec := disk.D(), disk.w, node.Rec();
    var l := node.blocks - DIRECT - K - K * K;
    AppendStart(d0, disk.inodeBlocks + 1, disk.freelistHead, w0, rec, ino, b);
    TripleParts(l);
    GrowsFromTop(rec.blocks);
    if l == 0 {
      var x := TakeRoot(disk, ino, b, rec.blocks, d0, w0);
      if x == -1 {
        AppendStuck(disk.D(), disk.inodeBlocks + 1, disk.freelistHead, disk.w, rec, node.Rec(), ino, b, 3, 0, d0, w0);
        return false;
      }
      node.triple := x;
    } else {
      SkipLevel(disk.D(), disk.inodeBlocks + 1, disk.freelistHead, disk.w, ino, b, rec.blocks, 3, 0, d0, w0);
    }
    GrownSize(w0.files[ino], rec.blocks, 3, disk.w.files[ino], 3);
    ok := AddUnderRoot(disk, node, l, b, ino, GrowsFrom(rec.blocks, 3), d0, w0, rec);
  }

  /** Appends the held block `b` to the inode, or fails when the disk is full. */
  method AddDatablockToInode(disk: Disk, node: Inode, ghost ino: int, b: int) returns (ok: bool)
    requires AppendReady(disk.D(), disk.inodeBlocks + 1, disk.freelistHead, disk.w, node.Rec(), ino, b)
    modifies disk`freelistHead, disk`w, disk.store, node
    ensures disk.Sound()
    ensures ok ==> Appended(old(disk.D()), old(disk.w), old(node.Rec()), disk.D(), disk.w, node.Rec(), ino, b)
    ensures !ok ==> AppendFailed(old(disk.D()), old(disk.w), old(node.Rec()), disk.D(), disk.w, node.Rec(), ino, b)
    ensures ok <==> old(node.blocks) < MAX_BLOCKS && Growth(old(node.blocks)) <= old(NumFree(disk.w.owner))
  {
    hide WorldOk, TreesOk, Shaped, NumFree, Growth, PointersOk;
    var l := node.blocks;
    if l < DIRECT {
      ok := AddDirect(disk, node, ino, b);
      return;
    }
    l := l - DIRECT;
    if l < K {
      ok := AddSingle(disk, node, ino, b);
      return;
    }
    l := l - K;
    if l < K * K {
      ok := AddDouble(disk, node, ino, b);
      return;
    }
    l := l - K * K;
    if l < K * K * K {
      ok := AddTriple(disk, node, ino, b);
      return;
    }
    AppendFull(disk.D(), disk.inodeBlocks + 1, disk.freelistHead, disk.w, node.Rec(), ino, b);
    return false;
  }

  lemma GrowsFromTop(n: int)
    requires 0 <= n < MAX_BLOCKS
    ensures GrowsFrom(n, Region(n) + 1) == 0
    ensures forall j :: 0 <= j <= Region(n) ==> GrowsFrom(n, j) == Grows(n, j) + GrowsFrom(n, j + 1)
  {
  }

  /** The index block above position `k` names the block at `k`. */
  lemma ChildOf(d: seq<Block>, lo: int, head: int, w: World, ino: int, r: int, j: int, k: int)
    requires WorldOk(d, lo, head, w) && 0 <= ino < |w.files| && TreesOk(d, w.files[ino])
    requires 0 <= j < r < 4 && 0 <= k < |w.files[ino][r][j]|
    ensures
      var f := w.files[ino];
      && 0 < f[r][j][k] < |d|
      && 0 <= k / K < |f[r][j + 1]| && 0 <= f[r][j + 1][k / K] < |d|
      && d[f[r][j + 1][k / K]][k % K] == f[r][j][k]
  {
    var f := w.files[ino];
    assert w.owner[w.files[ino][r][j][k]] == At(ino, r, j, k);
    assert Links(d, f[r][j + 1], f[r][j]);
    ChildAt(d, f[r][j + 1], f[r][j], k);
  }

  /** Appending refines appending to a list: block `n` is `b`, all others are as before. */
  lemma AppendRefines(d: seq<Block>, w: World, rec: InodeRec, d': seq<Block>, w': World, rec': InodeRec, ino: int, b: int)
    requires 0 <= ino < |w.files| && FileOk(d, rec, w.files[ino])
    requires Appended(d, w, rec, d', w', rec', ino, b)
    ensures rec'.blocks == rec.blocks + 1 && |w'.files| == |w.files|
    ensures DataAt(w'.files[ino], rec.blocks) == b
    ensures forall l :: 0 <= l < rec.blocks ==> DataAt(w'.files[ino], l) == DataAt(w.files[ino], l)
    ensures Mapping(w'.files[ino], rec'.blocks) == Mapping(w.files[ino], rec.blocks) + [b]
  {
    hide TreesOk, PointersOk, NumFree, Growth;
    var f, f', n := w.files[ino], w'.files[ino], rec.blocks;
    NeedStep(n, Region(n), 0);
    assert |f[Region(n)][0]| == Need(Region(n), 0, n);
    forall l | 0 <= l < n ensures DataAt(f', l) == DataAt(f, l) {
      assert |f[Region(l)][0]| == Need(Region(l), 0, n);
    }
  }
}
