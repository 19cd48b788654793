/** `remove_datablocks_from_inode` for cuts up to the end of the single indirect region. */
module Removal {
  import opened Blocks
  import opened Ownership
  import opened BlockMap
  import opened Attaching
  import opened Walks
  import opened Cutting
  import opened Releasing
  import opened Disk
  import opened Lookup
  import opened Truncation

  /** In the middle of freeing the list `done + rest`: `done` is free, `rest` still held. */
  ghost predicate Freeing(disk: Disk, b: seq<Block>, w1: World, done: seq<int>, rest: seq<int>)
    reads disk, disk.store
  {
    && disk.Sound() && (done + rest != [] ==> disk.freelistHead != 0)
    && AllHeld(w1, done + rest) && Distinct(done + rest)
    && Released(b, w1, disk.D(), disk.w, done)
  }

  lemma FreeingNext(disk: Disk, b: seq<Block>, w1: World, done: seq<int>, mid: seq<int>, rest: seq<int>)
    requires Freeing(disk, b, w1, done, mid + rest)
    ensures mid != [] ==> disk.freelistHead != 0
    ensures AllHeld(disk.w, mid) && Distinct(mid) && AllHeld(w1, done)
    ensures forall x :: x in mid && 0 <= x < |b| ==> disk.D()[x] == b[x]
  {
    assert done + (mid + rest) == done + mid + rest;
    StillHeld(b, w1, disk.D(), disk.w, done, mid, rest);
  }

  /** Frees the next block `x` of the list. */
  method FreeNext(disk: Disk, x: int, ghost b: seq<Block>, ghost w1: World, ghost done: seq<int>, ghost rest: seq<int>)
    returns (ok: bool)
    requires Freeing(disk, b, w1, done, [x] + rest)
    modifies disk`freelistHead, disk`w, disk.store
    ensures ok && Freeing(disk, b, w1, done + [x], rest)
  {
    hide WorldOk, Released, AllHeld, Distinct;
    FreeingNext(disk, b, w1, done, [x], rest);
    ghost var d0, w0 := disk.D(), disk.w;
    ok := FreeOne(disk, x);
    ReleasedMore(b, w1, d0, w0, done, disk.D(), disk.w, [x]);
    assert done + ([x] + rest) == (done + [x]) + rest;
  }

  /** Frees the tree under `p`, the next part of the list. */
  method FreeTree(disk: Disk, p: int, level: nat, ghost b: seq<Block>, ghost w1: World, ghost done: seq<int>, ghost rest: seq<int>)
    returns (ok: bool)
    requires 1 <= level <= 3 && Freeing(disk, b, w1, done, Walk(b, p, level) + rest)
    modifies disk`freelistHead, disk`w, disk.store
    ensures ok && Freeing(disk, b, w1, done + Walk(b, p, level), rest)
  {
    hide WorldOk, Released, AllHeld, Distinct, Walk;
    ghost var mid := Walk(b, p, level);
    FreeingNext(disk, b, w1, done, mid, rest);
    ReleasedLength(b, w1, disk.D(), disk.w, done);
    WalkFrame(b, disk.D(), p, level);
    ghost var d0, w0 := disk.D(), disk.w;
    ok := RemoveDatablocksUtility(disk, p, level);
    ReleasedMore(b, w1, d0, w0, done, disk.D(), disk.w, mid);
    assert done + (mid + rest) == (done + mid) + rest;
  }

  lemma RootsOf(b: seq<Block>, f: FileMap, m: int, r: int)
    requires 1 <= r < 4 && 0 <= m <= MAX_BLOCKS && Shaped(f, m)
    ensures m <= Start(r) ==> f[r][r] == [] && RegionWalk(b, f, r) == []
    ensures m > Start(r) ==> |f[r][r]| == 1 && RegionWalk(b, f, r) == Walk(b, Entry(f[r][r], 0), r)
  {
    assert |f[r][r]| == Need(r, r, m);
    UpValues(DataIn(r, m));
  }

  /** Frees the double and triple indirect trees of a file with `ending` blocks
      after the direct ones. */
  method RemoveLater(disk: Disk, node: Inode, ending: int, ghost b: seq<Block>, ghost w1: World,
                     ghost done: seq<int>, ghost f: FileMap, ghost m: int)
    returns (ok: bool)
    requires 0 <= m <= MAX_BLOCKS && Shaped(f, m) && ending == m - DIRECT
    requires Freeing(disk, b, w1, done, RegionWalk(b, f, 2) + RegionWalk(b, f, 3))
    requires node.double == Entry(f[2][2], 0) && node.triple == Entry(f[3][3], 0)
    modifies disk`freelistHead, disk`w, disk.store, node`double, node`triple
    ensures ok && Freeing(disk, b, w1, done + RegionWalk(b, f, 2) + RegionWalk(b, f, 3), [])
    ensures node.double == 0 && node.triple == 0
  {
    hide Freeing, Walk, RegionWalk, Shaped;
    RootsOf(b, f, m, 2);
    RootsOf(b, f, m, 3);
    ghost var r2, r3 := RegionWalk(b, f, 2), RegionWalk(b, f, 3);
    assert r3 + [] == r3 && [] + r3 == r3 && done + [] == done;
    var left := ending;
    if left <= K {
      assert done + r2 + r3 == done && r2 + r3 == [];
      return true;
    }
    ok := FreeTree(disk, node.double, 2, b, w1, done, r3);
    if !ok {
      return false;
    }
    node.double := 0;
    left := left - K;
    if left <= K * K {
      assert done + r2 + r3 == done + r2;
      return true;
    }
    ok := FreeTree(disk, node.triple, 3, b, w1, done + r2, []);
    if !ok {
      return false;
    }
    node.triple := 0;
  }

  function Between(s: seq<int>, l: int, i: int): seq<int>
    requires 0 <= l <= i <= |s|
  {
    s[l..i]
  }

  lemma PartStart(s: seq<int>, l: int)
    requires 0 <= l <= |s|
    ensures Between(s, l, l) == []
  {
  }

  lemma PartNext(s: seq<int>, l: int, i: int, tail: seq<int>)
    requires 0 <= l <= i < |s|
    ensures Drop(s, i) + tail == [s[i]] + (Drop(s, i + 1) + tail)
    ensures Between(s, l, i) + [s[i]] == Between(s, l, i + 1)
  {
  }

  lemma PartEnd(s: seq<int>, l: int, tail: seq<int>)
    requires 0 <= l <= |s|
    ensures Drop(s, |s|) + tail == tail && Between(s, l, |s|) == Drop(s, l)
  {
  }

  /** Frees and clears the direct blocks from `l` on. */
  method ClearDirect(disk: Disk, node: Inode, l: int, ending: int, ghost b: seq<Block>, ghost w1: World,
                     ghost t: seq<int>, ghost tail: seq<int>)
    returns (ok: bool)
    requires 0 <= l <= |t| && |node.direct| == DIRECT
    requires |t| == (if ending < DIRECT then ending else DIRECT)
    requires forall k :: 0 <= k < |t| ==> node.direct[k] == t[k]
    requires Freeing(disk, b, w1, [], Drop(t, l) + tail)
    modifies disk`freelistHead, disk`w, disk.store, node`direct
    ensures ok && Freeing(disk, b, w1, Drop(t, l), tail) && |node.direct| == DIRECT
    ensures forall k :: 0 <= k < DIRECT ==> node.direct[k] == if l <= k < |t| then 0 else old(node.direct)[k]
  {
    hide Freeing, Drop, Between;
    PartStart(t, l);
    var i := l;
    while i < DIRECT && i < ending
      invariant l <= i <= |t|
      invariant Freeing(disk, b, w1, Between(t, l, i), Drop(t, i) + tail)
      invariant |node.direct| == DIRECT
      invariant forall k :: 0 <= k < DIRECT ==> node.direct[k] == if l <= k < i then 0 else old(node.direct)[k]
    {
      PartNext(t, l, i, tail);
      ok := FreeNext(disk, node.direct[i], b, w1, Between(t, l, i), Drop(t, i + 1) + tail);
      if !ok {
        return false;
      }
      node.direct := node.direct[i := 0];
      i := i + 1;
    }
    PartEnd(t, l, tail);
    return true;
  }

  /** The cut is in the direct blocks, or just behind them. */
  method RemoveFromDirect(disk: Disk, node: Inode, ghost ino: int, l: int) returns (ok: bool)
    requires InodeOk(disk.D(), disk.inodeBlocks + 1, disk.freelistHead, disk.w, node.Rec(), ino)
    requires disk.freelistHead != 0 && 0 <= l < node.blocks && l <= DIRECT
    modifies disk`freelistHead, disk`w, disk.store, node
    ensures ok && disk.Sound() && disk.freelistHead != 0
    ensures Truncated(old(disk.D()), old(disk.w), old(node.Rec()), disk.D(), disk.w, node.Rec(), ino, l)
  {
    hide WorldOk, FileOk, Freeing, Walk, RegionWalk, Shaped, Cut, Detach, Truncated, NumFree, Doomed, Released;
    ghost var d, w, rec, f, lo, head := disk.D(), disk.w, node.Rec(), disk.w.files[ino], disk.inodeBlocks + 1, disk.freelistHead;
    ghost var w1 := Detach(w, ino, Cut(f, l));
    CutReady(d, lo, head, w, rec, ino, l);
    DirectFacts(d, lo, head, w, rec, ino);
    disk.w := w1;
    ghost var r1, r23 := RegionWalk(d, f, 1), RegionWalk(d, f, 2) + RegionWalk(d, f, 3);
    DoomedParts(d, f, l);
    FreeingStart(disk, d, w1, Doomed(d, f, 0, l));
    ok := ClearDirect(disk, node, l, node.blocks, d, w1, f[0][0], r1 + r23);
    if !ok {
      return false;
    }
    ghost var done := Drop(f[0][0], l);
    RootsOf(d, f, rec.blocks, 1);
    var ending := node.blocks;
    if ending <= DIRECT {
      RootsOf(d, f, rec.blocks, 2);
      RootsOf(d, f, rec.blocks, 3);
      assert r1 + r23 == [] && done == Doomed(d, f, 0, l);
    } else {
      ok := FreeTree(disk, node.single, 1, d, w1, done, r23);
      if !ok {
        return false;
      }
      node.single := 0;
      ok := RemoveLater(disk, node, ending - DIRECT, d, w1, done + r1, f, rec.blocks);
    }
    FreeingDone(disk, d, w1, Doomed(d, f, 0, l));
    SomeDoomed(d, lo, head, w, rec, ino, l);
    node.blocks := l;
    TruncateDone(d, lo, head, w, rec, ino, l, d, disk.D(), disk.w, node.Rec());
    return true;
  }

  lemma DoomedParts(d: seq<Block>, f: FileMap, l: int)
    requires 0 <= l
    ensures
      var a, r1, r2, r3 := Drop(f[0][0], l), RegionWalk(d, f, 1), RegionWalk(d, f, 2), RegionWalk(d, f, 3);
      && Doomed(d, f, 0, l) == a + (r1 + (r2 + r3))
      && Doomed(d, f, 0, l) == a + r1 + r2 + r3
  {
    hide RegionWalk, Drop;
    var a, r1, r2, r3 := Drop(f[0][0], l), RegionWalk(d, f, 1), RegionWalk(d, f, 2), RegionWalk(d, f, 3);
    Associative(r1, r2, r3);
    Associative(a, r1 + r2, r3);
    Associative(a, r1, r2);
  }

  lemma SomeDoomed(d: seq<Block>, lo: int, head: int, w: World, rec: InodeRec, ino: int, n: int)
    requires InodeOk(d, lo, head, w, rec, ino) && 0 <= n < rec.blocks && n <= Start(2)
    ensures Doomed(d, w.files[ino], CutRegion(n), n) != []
  {
    DoomedLength(d, lo, head, w, rec, ino, n);
    IndexMonotone(n, rec.blocks);
  }

  lemma IndexMonotone(n: int, m: int)
    requires n <= m
    ensures IndexBlocks(n) <= IndexBlocks(m)
  {
    hide Need;
    NeedMonotone(1, 1, n, m);
    NeedMonotone(2, 1, n, m);
    NeedMonotone(2, 2, n, m);
    NeedMonotone(3, 1, n, m);
    NeedMonotone(3, 2, n, m);
    NeedMonotone(3, 3, n, m);
  }

  lemma FreeingDone(disk: Disk, b: seq<Block>, w1: World, s: seq<int>)
    requires Freeing(disk, b, w1, s, [])
    ensures disk.Sound() && (s != [] ==> disk.freelistHead != 0) && Released(b, w1, disk.D(), disk.w, s)
  {
    assert s + [] == s;
  }

  lemma FreeingStart(disk: Disk, b: seq<Block>, w1: World, s: seq<int>)
    requires disk.Sound() && (s != [] ==> disk.freelistHead != 0) && disk.w == w1 && disk.D() == b
    requires AllHeld(w1, s) && Distinct(s)
    ensures Freeing(disk, b, w1, [], s)
  {
    assert [] + s == s;
    ReleasedNone(b, w1);
  }

  lemma DirectFacts(d: seq<Block>, lo: int, head: int, w: World, rec: InodeRec, ino: int)
    requires InodeOk(d, lo, head, w, rec, ino)
    ensures
      var f := w.files[ino];
      && |f[0][0]| == (if rec.blocks < DIRECT then rec.blocks else DIRECT) && 0 <= rec.blocks <= MAX_BLOCKS
      && Shaped(f, rec.blocks) && PointersOk(rec, f)
  {
    assert |w.files[ino][0][0]| == Need(0, 0, rec.blocks);
  }

  /** Frees the blocks listed from slot `l` on and clears those slots of the buffer. */
  method ClearSlots(disk: Disk, buffer: Block, l: int, ending: int, ghost b: seq<Block>, ghost w1: World,
                    ghost done: seq<int>, ghost t: seq<int>, ghost tail: seq<int>)
    returns (ok: bool, buffer': Block, i: int)
    requires 0 <= l <= |t| && |t| == (if ending < K then ending else K)
    requires forall k :: 0 <= k < |t| ==> buffer[k] == t[k]
    requires Freeing(disk, b, w1, done, Drop(t, l) + tail)
    modifies disk`freelistHead, disk`w, disk.store
    ensures ok && i == |t| && Freeing(disk, b, w1, done + Drop(t, l), tail)
    ensures forall k :: 0 <= k < K ==> buffer'[k] == if l <= k < |t| then 0 else buffer[k]
  {
    hide Freeing, Drop, Between;
    PartStart(t, l);
    assert done + [] == done;
    buffer' := buffer;
    i := l;
    while i < ending && i < K
      invariant l <= i <= |t|
      invariant Freeing(disk, b, w1, done + Between(t, l, i), Drop(t, i) + tail)
      invariant forall k :: 0 <= k < K ==> buffer'[k] == if l <= k < i then 0 else buffer[k]
    {
      PartNext(t, l, i, tail);
      Associative(done, Between(t, l, i), [t[i]]);
      ok := FreeNext(disk, buffer'[i], b, w1, done + Between(t, l, i), Drop(t, i + 1) + tail);
      if !ok {
        return false, buffer', i;
      }
      buffer' := buffer'[i := 0];
      i := i + 1;
    }
    PartEnd(t, l, tail);
    ok := true;
  }

  /** Writing an index block that stays changes only what to compare with. */
  lemma Rebase(b: seq<Block>, w1: World, d: seq<Block>, lo: int, head: int, w: World, done: seq<int>,
               p: int, buffer: Block)
    requires Released(b, w1, d, w, done) && WorldOk(d, lo, head, w)
    requires 0 <= p < |b| && p in w1.owner && !w1.owner[p].Free() && p !in done
    ensures Released(b[p := buffer], w1, d[p := buffer], w, done) && WorldOk(d[p := buffer], lo, head, w)
  {
    assert w.owner[p] == w1.owner[p];
    FreeListFrame(d, head, w.chain, w.owner, d[p := buffer], w.owner);
  }

  /** The trees of the later regions do not go through the single indirect block. */
  lemma LaterWalks(d: seq<Block>, lo: int, head: int, w: World, rec: InodeRec, ino: int, buffer: Block)
    requires InodeOk(d, lo, head, w, rec, ino) && |w.files[ino][1][1]| == 1
    ensures
      var f := w.files[ino];
      && 0 <= f[1][1][0] < |d|
      && (forall r :: 2 <= r < 4 ==> RegionWalk(d[f[1][1][0] := buffer], f, r) == RegionWalk(d, f, r))
  {
    hide WorldOk, FileOk, RegionWalk, InRegion, Walk;
    FactsOf(d, lo, head, w, rec, ino);
    SingleOwner(d, lo, head, w, ino);
    var f := w.files[ino];
    var p := f[1][1][0];
    forall r | 2 <= r < 4 ensures RegionWalk(d[p := buffer], f, r) == RegionWalk(d, f, r) {
      RegionWalkOwned(d, lo, head, w, ino, r);
      OtherRegion(w.owner[p], ino, r);
      RegionFrame(d, d[p := buffer], f, r);
    }
  }

  lemma RegionFrame(d: seq<Block>, d': seq<Block>, f: FileMap, r: int)
    requires 1 <= r < 4 && |d'| == |d|
    requires forall x :: x in RegionWalk(d, f, r) && 0 <= x < |d| ==> d'[x] == d[x]
    ensures RegionWalk(d', f, r) == RegionWalk(d, f, r)
  {
    if f[r][r] != [] {
      WalkFrame(d, d', f[r][r][0], r);
    }
  }

  lemma OtherRegion(o: Owner, ino: int, r: int)
    requires o == At(ino, 1, 1, 0) && r != 1
    ensures !InRegion(o, ino, r)
  {
  }

  lemma SingleOwner(d: seq<Block>, lo: int, head: int, w: World, ino: int)
    requires WorldOk(d, lo, head, w) && 0 <= ino < |w.files| && |w.files[ino][1][1]| == 1
    ensures
      var p := w.files[ino][1][1][0];
      0 < lo <= p < |d| && p in w.owner && w.owner[p] == At(ino, 1, 1, 0)
  {
    assert w.owner[w.files[ino][1][1][0]] == At(ino, 1, 1, 0);
  }

  lemma SingleFacts(d: seq<Block>, lo: int, head: int, w: World, rec: InodeRec, ino: int, l: int)
    requires InodeOk(d, lo, head, w, rec, ino) && DIRECT < l < rec.blocks && l <= Start(2)
    ensures
      var f := w.files[ino];
      var w1 := Detach(w, ino, Cut(f, l));
      && |f[1][1]| == 1 && rec.single == f[1][1][0] && 0 < lo <= rec.single < |d|
      && |f[1][0]| == (if rec.blocks - DIRECT < K then rec.blocks - DIRECT else K)
      && (forall k :: 0 <= k < K ==> d[rec.single][k] == Entry(f[1][0], k))
      && rec.blocks <= MAX_BLOCKS && Shaped(f, rec.blocks) && |rec.direct| == DIRECT
      && rec.double == Entry(f[2][2], 0) && rec.triple == Entry(f[3][3], 0)
      && rec.single in w1.owner && w1.owner[rec.single].At?
  {
    var f := w.files[ino];
    assert |f[1][1]| == Need(1, 1, rec.blocks) && |f[1][0]| == Need(1, 0, rec.blocks);
    UpValues(DataIn(1, rec.blocks));
    SingleStays(d, lo, head, w, ino, l);
    assert Links(d, f[1][0 + 1], f[1][0]);
    assert forall k :: 0 <= k < K ==> d[f[1][1][0]][k] == Entry(f[1][0], 0 * K + k);
    BeyondOwner(d, lo, head, w, rec, ino, l, rec.single);
  }

  lemma DoomedSingle(d: seq<Block>, f: FileMap, l: int)
    requires Start(1) <= l
    ensures
      var a, r2, r3 := Drop(f[1][0], l - DIRECT), RegionWalk(d, f, 2), RegionWalk(d, f, 3);
      && Doomed(d, f, 1, l) == a + (r2 + r3) && Doomed(d, f, 1, l) == a + r2 + r3
  {
    hide RegionWalk, Drop;
    var a, r2, r3 := Drop(f[1][0], l - DIRECT), RegionWalk(d, f, 2), RegionWalk(d, f, 3);
    assert a + [] == a;
    Associative(a, r2, r3);
  }

  lemma Associative(a: seq<int>, b: seq<int>, c: seq<int>)
    ensures a + b + c == a + (b + c)
  {
  }

  /** A block that stays in an inode is not in the list. */
  lemma NotFreed(disk: Disk, b: seq<Block>, w1: World, done: seq<int>, rest: seq<int>, p: int)
    requires Freeing(disk, b, w1, done, rest) && p in w1.owner && w1.owner[p].At?
    ensures p !in done && !w1.owner[p].Free()
  {
    assert p in done ==> p in done + rest;
  }

  lemma FreeingBase(disk: Disk, b: seq<Block>, w1: World, done: seq<int>, rest: seq<int>, p: int, buffer: Block)
    requires Freeing(disk, b, w1, done, rest)
    requires 0 <= p < |b| && p in w1.owner && !w1.owner[p].Free() && p !in done
    ensures |b| == |disk.D()| && (done + rest != [] ==> disk.freelistHead != 0) && AllHeld(w1, done + rest) && Distinct(done + rest)
    ensures Released(b[p := buffer], w1, disk.D()[p := buffer], disk.w, done)
    ensures WorldOk(disk.D()[p := buffer], disk.inodeBlocks + 1, disk.freelistHead, disk.w)
  {
    Rebase(b, w1, disk.D(), disk.inodeBlocks + 1, disk.freelistHead, disk.w, done, p, buffer);
  }

  lemma FreeingAgain(disk: Disk, b: seq<Block>, w1: World, done: seq<int>, rest: seq<int>)
    requires AllHeld(w1, done + rest) && Distinct(done + rest) && (done + rest != [] ==> disk.freelistHead != 0)
    requires Released(b, w1, disk.D(), disk.w, done)
    requires WorldOk(disk.D(), disk.inodeBlocks + 1, disk.freelistHead, disk.w)
    ensures Freeing(disk, b, w1, done, rest)
  {
  }

  lemma SingleBase(d: seq<Block>, lo: int, head: int, w: World, rec: InodeRec, ino: int, l: int, buffer: Block)
    requires InodeOk(d, lo, head, w, rec, ino) && DIRECT < l < rec.blocks && l <= Start(2)
    requires 0 <= rec.single < |d|
    requires forall k :: 0 <= k < K ==>
      buffer[k] == if l - DIRECT <= k < |w.files[ino][1][0]| then 0 else d[rec.single][k]
    ensures CutBase(d, w.files[ino], l, d[rec.single := buffer])
  {
    hide WorldOk, FileOk, Shaped, Need;
    var f := w.files[ino];
    SingleFacts(d, lo, head, w, rec, ino, l);
    CutSizes(f, rec.blocks, l);
    CutData(f, l);
  }

  lemma CutData(f: FileMap, n: int)
    ensures Cut(f, n)[1][0] <= f[1][0]
  {
  }

  /** The cut is behind the direct blocks, at most at the end of the single indirect ones. */
  method RemoveFromSingle(disk: Disk, node: Inode, ghost ino: int, l: int) returns (ok: bool)
    requires InodeOk(disk.D(), disk.inodeBlocks + 1, disk.freelistHead, disk.w, node.Rec(), ino)
    requires disk.freelistHead != 0 && DIRECT < l < node.blocks && l <= Start(2)
    modifies disk`freelistHead, disk`w, disk.store, node
    ensures ok && disk.Sound() && disk.freelistHead != 0
    ensures Truncated(old(disk.D()), old(disk.w), old(node.Rec()), disk.D(), disk.w, node.Rec(), ino, l)
  {
    hide WorldOk, FileOk, Freeing, Walk, RegionWalk, Shaped, Cut, Detach, Truncated, NumFree, Doomed, Released,
         PointersOk, AllHeld, Distinct, CutBase, Drop;
    ghost var d, w, rec, f, lo, head := disk.D(), disk.w, node.Rec(), disk.w.files[ino], disk.inodeBlocks + 1, disk.freelistHead;
    ghost var w1 := Detach(w, ino, Cut(f, l));
    CutReady(d, lo, head, w, rec, ino, l);
    SingleFacts(d, lo, head, w, rec, ino, l);
    disk.w := w1;
    ghost var all, tail := Doomed(d, f, 1, l), RegionWalk(d, f, 2) + RegionWalk(d, f, 3);
    DoomedSingle(d, f, l);
    FreeingStart(disk, d, w1, all);
    if node.single == 0 {
      return false;
    }
    var c, ending := l - DIRECT, node.blocks - DIRECT;
    var _, buffer := disk.ReadDataBlock(node.single);
    assert [] + Drop(f[1][0], c) == Drop(f[1][0], c);
    var i;
    ok, buffer, i := ClearSlots(disk, buffer, c, ending, d, w1, [], f[1][0], tail);
    if !ok {
      return false;
    }
    ghost var b, part := d[node.single := buffer], Drop(f[1][0], c);
    LaterWalks(d, lo, head, w, rec, ino, buffer);
    NotFreed(disk, d, w1, part, tail, node.single);
    FreeingBase(disk, d, w1, part, tail, node.single, buffer);
    var written := disk.WriteDataBlock(node.single, buffer);
    if !written {
      return false;
    }
    FreeingAgain(disk, b, w1, part, tail);
    RootsOf(d, f, rec.blocks, 2);
    RootsOf(d, f, rec.blocks, 3);
    if ending <= K {
      assert tail == [] && part == all;
    } else {
      ok := RemoveLater(disk, node, ending, b, w1, part, f, rec.blocks);
    }
    FreeingDone(disk, b, w1, all);
    SomeDoomed(d, lo, head, w, rec, ino, l);
    node.blocks := l;
    SingleBase(d, lo, head, w, rec, ino, l, buffer);
    TruncateDone(d, lo, head, w, rec, ino, l, b, disk.D(), disk.w, node.Rec());
    return true;
  }
}
