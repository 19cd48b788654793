/** Finding the disk block of a logical block, with and without the hint. */
module Lookup {
  import opened Blocks
  import opened Ownership
  import opened BlockMap
  import opened Disk

  /** `rec` and the disk represent inode `ino` of the world. */
  ghost predicate InodeOk(d: seq<Block>, lo: int, head: int, w: World, rec: InodeRec, ino: int) {
    WorldOk(d, lo, head, w) && 0 <= ino < |w.files| && FileOk(d, rec, w.files[ino])
  }

  /** The hint is unset, or unused for `l`, or the index block just above `l`. */
  ghost predicate HintOk(f: FileMap, l: int, prev: int) {
    prev == 0 ||
    (Start(2) <= l &&
      (l < MAX_BLOCKS ==>
        var c := l - Start(Region(l));
        c % K == 0 || (c / K < |f[Region(l)][1]| && prev == f[Region(l)][1][c / K])))
  }

  lemma HintNext(f: FileMap, l: int, prev: int)
    requires Start(2) <= l < MAX_BLOCKS
    requires
      var c := l - Start(Region(l));
      c / K < |f[Region(l)][1]| && prev == f[Region(l)][1][c / K]
    ensures HintOk(f, l + 1, prev)
  {
  }

  /** Slot `k % K` of the index block over position `k` names the block at `k`, or 0. */
  lemma SlotValue(d: seq<Block>, lo: int, head: int, w: World, rec: InodeRec, ino: int, r: int, j: int, k: int)
    requires InodeOk(d, lo, head, w, rec, ino) && 0 <= j < r < 4 && 0 <= k < K * |w.files[ino][r][j + 1]|
    ensures
      var p := w.files[ino][r][j + 1][k / K];
      lo <= p < |d| && 0 < p && d[p][k % K] == Entry(w.files[ino][r][j], k)
    ensures k < |w.files[ino][r][j]| ==> w.files[ino][r][j][k] > 0
  {
    var f := w.files[ino];
    if k < |f[r][j]| {
      assert w.owner[w.files[ino][r][j][k]] == At(ino, r, j, k);
    }
    assert Links(d, f[r][j + 1], f[r][j]);
    ChildAt(d, f[r][j + 1], f[r][j], k);
    assert w.owner[w.files[ino][r][j + 1][k / K]] == At(ino, r, j + 1, k / K);
  }

  lemma RootPositive(d: seq<Block>, lo: int, head: int, w: World, rec: InodeRec, ino: int, r: int)
    requires InodeOk(d, lo, head, w, rec, ino) && 1 <= r < 4
    ensures w.files[ino][r][r] != [] ==> 0 < lo <= w.files[ino][r][r][0] < |d|
  {
    if w.files[ino][r][r] != [] {
      assert w.owner[w.files[ino][r][r][0]] == At(ino, r, r, 0);
    }
  }

  /** The sizes that a lookup of block `l` of a map of `n >= l` blocks meets. */
  lemma LookupSizes(f: FileMap, n: int, l: int)
    requires 0 <= l <= n <= MAX_BLOCKS && l < MAX_BLOCKS && Shaped(f, n)
    ensures
      var r, c := Region(l), l - Start(Region(l));
      && (l < n ==> c < |f[r][0]|) && (l == n ==> c == |f[r][0]|)
      && (r == 1 ==> |f[1][1]| == if l == n && c == 0 then 0 else 1)
      && (r >= 2 ==> |f[r][r]| == if l == n && c == 0 then 0 else 1)
      && (r == 2 ==> if l == n && c % K == 0 then |f[2][1]| == c / K else c / K < |f[2][1]|)
      && (r == 3 ==> if l == n && c % K == 0 then |f[3][1]| == c / K else c / K < |f[3][1]|)
      && (r == 3 ==> if l == n && c % (K * K) == 0 then |f[3][2]| == c / (K * K) else c / (K * K) < |f[3][2]|)
  {
    hide Need, Region, Start;
    var r, c := Region(l), l - Start(Region(l));
    forall j | 0 <= j <= r ensures if l == n && Aligned(c, j) then |f[r][j]| == Down(c, j) else Down(c, j) < |f[r][j]| {
      LevelSize(n, l, j);
    }
    AlignedValues(c);
    assert Down(c, 0) == c && Aligned(c, 0);
    OneRoot(n, l);
    assert |f[r][r]| == Need(r, r, n);
  }

  /** Level `j` of a map of `n` blocks reaches over block `l`, unless it is about to grow. */
  lemma LevelSize(n: int, l: int, j: int)
    requires 0 <= l <= n <= MAX_BLOCKS && l < MAX_BLOCKS && 0 <= j <= Region(l)
    ensures
      var r, c := Region(l), l - Start(Region(l));
      if l == n && Aligned(c, j) then Need(r, j, n) == Down(c, j) else Down(c, j) < Need(r, j, n)
  {
    hide Need, Region, Start, Down, Aligned;
    var r := Region(l);
    NeedStep(l, r, j);
    if l < n {
      NeedMonotone(r, j, l + 1, n);
    }
  }

  lemma OneRoot(n: int, l: int)
    requires 0 <= l <= n <= MAX_BLOCKS && l < MAX_BLOCKS
    ensures
      var r := Region(l);
      r >= 1 ==> Need(r, r, n) == if l == n && l == Start(r) then 0 else 1
  {
    SmallUp(DataIn(Region(l), n));
  }

  /** A mapped block is a data block of this inode at this place, and nowhere else. */
  lemma DataOwner(d: seq<Block>, lo: int, head: int, w: World, rec: InodeRec, ino: int, l: int)
    requires InodeOk(d, lo, head, w, rec, ino) && 0 <= l < rec.blocks
    ensures
      var x := DataAt(w.files[ino], l);
      && 0 < lo <= x < |d| && x in w.owner
      && w.owner[x] == At(ino, Region(l), 0, l - Start(Region(l)))
  {
    LookupSizes(w.files[ino], rec.blocks, l);
    var c := l - Start(Region(l));
    assert w.owner[w.files[ino][Region(l)][0][c]] == At(ino, Region(l), 0, c);
  }

  /** What a lookup of the block just behind the map returns: 0 from an empty slot, or -1 where
      there is no index block for it yet. */
  function Behind(l: int): int
    requires 0 <= l < MAX_BLOCKS
  {
    if l < DIRECT || (l - Start(Region(l))) % K != 0 then 0 else -1
  }

  /** What a lookup of block `l` returns, and the hint it leaves. */
  ghost predicate Found(f: FileMap, n: int, l: int, x: int, prev: int)
    requires 0 <= l < MAX_BLOCKS
  {
    && (l < n ==> x == DataAt(f, l) && x > 0 && HintOk(f, l + 1, prev))
    && (l == n ==> x == Behind(l))
    && (l > n ==> x == -1)
  }

  /** Reading slot `c % K` of the index block `p` over position `c` of the data. */
  lemma LeafFound(d: seq<Block>, lo: int, head: int, w: World, rec: InodeRec, ino: int, l: int, p: int)
    requires InodeOk(d, lo, head, w, rec, ino) && Start(1) <= l <= rec.blocks && l < MAX_BLOCKS
    requires
      var r, c := Region(l), l - Start(Region(l));
      c / K < |w.files[ino][r][1]| && p == w.files[ino][r][1][c / K]
    ensures lo <= p < |d| && 0 < p
    ensures Region(l) >= 2 ==> Found(w.files[ino], rec.blocks, l, d[p][(l - Start(Region(l))) % K], p)
    ensures Region(l) == 1 ==> Found(w.files[ino], rec.blocks, l, d[p][(l - Start(Region(l))) % K], 0)
  {
    hide WorldOk, TreesOk, Shaped, DataAt, HintOk, PointersOk, DataIn;
    var r, c := Region(l), l - Start(Region(l));
    SlotValue(d, lo, head, w, rec, ino, r, 0, c);
    LookupSizes(w.files[ino], rec.blocks, l);
    if l < rec.blocks {
      DataOwner(d, lo, head, w, rec, ino, l);
      DataValue(w.files[ino], l);
    }
    if r >= 2 {
      HintNext(w.files[ino], l, p);
    } else {
      HintZero(w.files[ino], l + 1);
    }
  }

  lemma DataValue(f: FileMap, l: int)
    requires 0 <= l < MAX_BLOCKS
    ensures DataAt(f, l) == Entry(f[Region(l)][0], l - Start(Region(l)))
  {
  }

  lemma HintZero(f: FileMap, l: int)
    ensures HintOk(f, l, 0)
  {
  }

  /** Finds the disk block of logical block `l`.  `prev` is the index block that the
      previous lookup ended in, or 0; it saves the walk from the root. */
  method GetDiskBlock(disk: Disk, node: Inode, ghost ino: int, l: int, prev: int) returns (x: int, prev': int)
    requires InodeOk(disk.D(), disk.inodeBlocks + 1, disk.freelistHead, disk.w, node.Rec(), ino)
    requires 0 <= l < MAX_BLOCKS && HintOk(disk.w.files[ino], l, prev)
    ensures l < node.blocks ==> x == DataAt(disk.w.files[ino], l) && x > 0
    ensures l < node.blocks ==> HintOk(disk.w.files[ino], l + 1, prev')
    ensures l == node.blocks ==> x == Behind(l)
    ensures l > node.blocks ==> x == -1
  {
    hide WorldOk, TreesOk, Shaped, DataIn, Need;
    ghost var rec, f := node.Rec(), disk.w.files[ino];
    if l > node.blocks {
      return -1, prev;
    }
    LookupSizes(f, node.blocks, l);
    if l < DIRECT {
      if l < node.blocks {
        DataOwner(disk.D(), disk.inodeBlocks + 1, disk.freelistHead, disk.w, rec, ino, l);
      }
      return node.direct[l], prev;
    }
    var c := l - DIRECT;
    if c < K {
      RootPositive(disk.D(), disk.inodeBlocks + 1, disk.freelistHead, disk.w, rec, ino, 1);
      if node.single == 0 {
        return -1, prev;
      }
      LeafFound(disk.D(), disk.inodeBlocks + 1, disk.freelistHead, disk.w, rec, ino, l, node.single);
      var _, leaf := disk.ReadDataBlock(node.single);
      return leaf[c], prev;
    }
    c := c - K;
    if c < K * K {
      x, prev' := FindDouble(disk, node, ino, l, c, prev);
      return;
    }
    c := c - K * K;
    x, prev' := FindTriple(disk, node, ino, l, c, prev);
  }

  method FindDouble(disk: Disk, node: Inode, ghost ino: int, ghost l: int, c: int, prev: int)
    returns (x: int, prev': int)
    requires InodeOk(disk.D(), disk.inodeBlocks + 1, disk.freelistHead, disk.w, node.Rec(), ino)
    requires 0 <= l <= node.blocks && l < MAX_BLOCKS && Region(l) == 2 && c == l - Start(2)
    requires HintOk(disk.w.files[ino], l, prev)
    ensures Found(disk.w.files[ino], node.blocks, l, x, prev')
  {
    hide WorldOk, TreesOk, Shaped, DataIn, Need, Region, Found, DataAt;
    ghost var rec, f := node.Rec(), disk.w.files[ino];
    LookupSizes(f, node.blocks, l);
    RootPositive(disk.D(), disk.inodeBlocks + 1, disk.freelistHead, disk.w, rec, ino, 2);
    if node.double == 0 {
      NotFound(f, node.blocks, l, c, prev);
      return -1, prev;
    }
    var i, inner := c / K, c % K;
    if inner != 0 && prev != 0 {
      LeafFound(disk.D(), disk.inodeBlocks + 1, disk.freelistHead, disk.w, rec, ino, l, prev);
      var _, leaf := disk.ReadDataBlock(prev);
      return leaf[inner], prev;
    }
    SlotValue(disk.D(), disk.inodeBlocks + 1, disk.freelistHead, disk.w, rec, ino, 2, 1, i);
    var _, root := disk.ReadDataBlock(node.double);
    x := root[i];
    if x <= 0 {
      NotFound(f, node.blocks, l, c, prev);
      return -1, prev;
    }
    prev' := x;
    LeafFound(disk.D(), disk.inodeBlocks + 1, disk.freelistHead, disk.w, rec, ino, l, x);
    var _, leaf := disk.ReadDataBlock(x);
    x := leaf[inner];
  }

  lemma NotFound(f: FileMap, n: int, l: int, c: int, prev: int)
    requires l == n && DIRECT <= l < MAX_BLOCKS && c == l - Start(Region(l)) && c % K == 0
    ensures Found(f, n, l, -1, prev)
  {
    hide Region, Start;
  }

  lemma TripleIndices(c: int)
    requires 0 <= c < K * K * K
    ensures c / (K * K) == c / K / K < K && 0 <= c / K < K * K
    ensures c % (K * K) == 0 ==> c % K == 0 && c / K % K == 0
  {
  }

  method FindTriple(disk: Disk, node: Inode, ghost ino: int, ghost l: int, c: int, prev: int)
    returns (x: int, prev': int)
    requires InodeOk(disk.D(), disk.inodeBlocks + 1, disk.freelistHead, disk.w, node.Rec(), ino)
    requires 0 <= l <= node.blocks && l < MAX_BLOCKS && Region(l) == 3 && c == l - Start(3)
    requires HintOk(disk.w.files[ino], l, prev)
    ensures Found(disk.w.files[ino], node.blocks, l, x, prev')
  {
    hide WorldOk, TreesOk, Shaped, DataIn, Need, Region, Found, DataAt;
    ghost var rec, f := node.Rec(), disk.w.files[ino];
    LookupSizes(f, node.blocks, l);
    TripleIndices(c);
    RootPositive(disk.D(), disk.inodeBlocks + 1, disk.freelistHead, disk.w, rec, ino, 3);
    if node.triple == 0 {
      NotFound(f, node.blocks, l, c, prev);
      return -1, prev;
    }
    var q, i, inner := c / (K * K), (c / K) % K, c % K;
    if inner != 0 && prev != 0 {
      LeafFound(disk.D(), disk.inodeBlocks + 1, disk.freelistHead, disk.w, rec, ino, l, prev);
      var _, leaf := disk.ReadDataBlock(prev);
      return leaf[inner], prev;
    }
    SlotValue(disk.D(), disk.inodeBlocks + 1, disk.freelistHead, disk.w, rec, ino, 3, 2, q);
    var _, root := disk.ReadDataBlock(node.triple);
    x := root[q];
    if x <= 0 {
      NotFound(f, node.blocks, l, c, prev);
      return -1, prev;
    }
    SlotValue(disk.D(), disk.inodeBlocks + 1, disk.freelistHead, disk.w, rec, ino, 3, 1, c / K);
    var _, mid := disk.ReadDataBlock(x);
    x := mid[i];
    if x <= 0 {
      NotFound(f, node.blocks, l, c, prev);
      return -1, prev;
    }
    prev' := x;
    LeafFound(disk.D(), disk.inodeBlocks + 1, disk.freelistHead, disk.w, rec, ino, l, x);
    var _, leaf := disk.ReadDataBlock(x);
    x := leaf[inner];
  }
}
