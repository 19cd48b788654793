/** `remove_datablocks_from_inode` for cuts inside the double indirect region, of a
    file that ends there.

    The data blocks behind the cut are freed, each once.  The index blocks are not
    all treated as they should be: the leaves between the first and the last are
    freed but stay listed in the root, and the last one is kept though it is empty.
    So the removal is exact only when the cut and the end share a leaf that the cut
    does not empty. */
module DoubleRemoval {
  import opened Blocks
  import opened Ownership
  import opened BlockMap
  import opened Attaching
  import opened Walks
  import opened Cutting
  import opened Releasing
  import opened Disk
  import opened Lookup
  import opened Truncation
  import opened Removal

  /** The data blocks under leaf `i` of the double indirect tree. */
  ghost function Children(f: FileMap, i: int): seq<int>
    requires 0 <= i && i * K <= |f[2][0]|
  {
    f[2][0][i * K..if i * K + K <= |f[2][0]| then i * K + K else |f[2][0]|]
  }

  /** Those of them that lie behind a cut at position `l`. */
  ghost function LeafPart(f: FileMap, l: int, i: int): seq<int>
    requires 0 <= i && i * K <= |f[2][0]|
  {
    Drop(Children(f, i), if l <= i * K then 0 else l - i * K)
  }

  /** The blocks freed from leaf `i` on: its data, then the leaf itself unless it is
      the first or the last one. */
  ghost function Sliding(f: FileMap, l: int, i: int): seq<int>
    requires 0 <= l && 0 <= i && i * K <= |f[2][0]|
    decreases |f[2][0]| - i * K
  {
    if |f[2][0]| <= i * K + K then LeafPart(f, l, i)
    else LeafPart(f, l, i) + ((if l / K < i then [Entry(f[2][1], i)] else []) + Sliding(f, l, i + 1))
  }

  /** The place `o` is one of a data block behind the cut under leaf `i`. */
  ghost predicate InLeaf(o: Owner, ino: int, l: int, i: int) {
    o.At? && o.ino == ino && o.r == 2 && o.j == 0 && l <= o.k && i * K <= o.k < i * K + K
  }

  /** The place `o` is one that the removal frees, at or behind leaf `i`. */
  ghost predicate Slides(o: Owner, ino: int, l: int, i: int, c: int) {
    && o.At? && o.ino == ino && o.r == 2
    && ((o.j == 0 && l <= o.k && i * K <= o.k) || (o.j == 1 && l / K < o.k && i <= o.k && o.k * K + K < c))
  }

  /** The sizes of the levels of a double indirect tree with `c` data blocks. */
  ghost predicate DoubleShape(f: FileMap, c: int) {
    0 < c <= K * K && |f[2][0]| == c && |f[2][1]| == (c - 1) / K + 1 && |f[2][2]| == 1
  }

  lemma LeafPartOwned(owner: map<int, Owner>, files: seq<FileMap>, ino: int, l: int, i: int)
    requires PositionsOk(owner, files) && 0 <= ino < |files| && 0 <= l && 0 <= i && i * K <= |files[ino][2][0]|
    ensures
      var s := LeafPart(files[ino], l, i);
      Distinct(s) && forall x :: x in s <==> x in owner && InLeaf(owner[x], ino, l, i)
  {
    var f, s := files[ino], LeafPart(files[ino], l, i);
    var from := if l <= i * K then i * K else l;
    TierDistinct(owner, files, ino, 2, 0);
    forall t | 0 <= t < |s| ensures s[t] in owner && owner[s[t]] == At(ino, 2, 0, from + t) {
      assert files[ino][2][0][from + t] == s[t];
    }
    forall x | x in owner && InLeaf(owner[x], ino, l, i) ensures x in s {
      assert PositionHolds(files, owner[x], x);
      assert s[owner[x].k - from] == x;
    }
  }

  lemma LeafOwned(owner: map<int, Owner>, files: seq<FileMap>, ino: int, i: int)
    requires PositionsOk(owner, files) && 0 <= ino < |files| && 0 <= i < |files[ino][2][1]|
    ensures
      var p := files[ino][2][1][i];
      p in owner && owner[p] == At(ino, 2, 1, i)
  {
    assert owner[files[ino][2][1][i]] == At(ino, 2, 1, i);
  }

  lemma SlidesStep(owner: map<int, Owner>, files: seq<FileMap>, ino: int, l: int, i: int, c: int, x: int)
    requires PositionsOk(owner, files) && 0 <= ino < |files| && DoubleShape(files[ino], c)
    requires 0 <= l && 0 <= i && i * K < c && x in owner
    ensures c <= i * K + K ==> (Slides(owner[x], ino, l, i, c) <==> InLeaf(owner[x], ino, l, i))
    ensures i * K + K < c ==>
      (Slides(owner[x], ino, l, i, c) <==>
         InLeaf(owner[x], ino, l, i) || (l / K < i && x == files[ino][2][1][i]) || Slides(owner[x], ino, l, i + 1, c))
    ensures InLeaf(owner[x], ino, l, i) ==> x != files[ino][2][1][i] && !Slides(owner[x], ino, l, i + 1, c)
    ensures x == files[ino][2][1][i] ==> !Slides(owner[x], ino, l, i + 1, c)
  {
    LeafOwned(owner, files, ino, i);
    if owner[x].At? {
      assert PositionHolds(files, owner[x], x);
    }
  }

  /** The removal frees exactly the data blocks behind the cut and the leaves strictly
      between the first and the last, each once. */
  lemma {:induction false} SlidingOwned(owner: map<int, Owner>, files: seq<FileMap>, ino: int, l: int, i: int, c: int)
    requires PositionsOk(owner, files) && 0 <= ino < |files| && DoubleShape(files[ino], c)
    requires 0 <= l && 0 <= i && i * K < c
    ensures
      var s := Sliding(files[ino], l, i);
      Distinct(s) && forall x :: x in s <==> x in owner && Slides(owner[x], ino, l, i, c)
    decreases c - i * K
  {
    hide PositionsOk, LeafPart, InLeaf, Slides, Distinct;
    var f := files[ino];
    LeafPartOwned(owner, files, ino, l, i);
    LeafOwned(owner, files, ino, i);
    forall x | x in owner
      ensures c <= i * K + K ==> (Slides(owner[x], ino, l, i, c) <==> InLeaf(owner[x], ino, l, i))
      ensures i * K + K < c ==>
        (Slides(owner[x], ino, l, i, c) <==>
           InLeaf(owner[x], ino, l, i) || (l / K < i && x == f[2][1][i]) || Slides(owner[x], ino, l, i + 1, c))
      ensures InLeaf(owner[x], ino, l, i) ==> x != f[2][1][i] && !Slides(owner[x], ino, l, i + 1, c)
      ensures x == f[2][1][i] ==> !Slides(owner[x], ino, l, i + 1, c)
    {
      SlidesStep(owner, files, ino, l, i, c, x);
    }
    if i * K + K < c {
      SlidingOwned(owner, files, ino, l, i + 1, c);
      var mid := if l / K < i then [f[2][1][i]] else [];
      SmallDistinct(mid);
      DistinctConcat(mid, Sliding(f, l, i + 1));
      DistinctConcat(LeafPart(f, l, i), mid + Sliding(f, l, i + 1));
    }
  }

  lemma SmallDistinct(s: seq<int>)
    requires |s| <= 1
    ensures Distinct(s)
  {
  }

  /** How many leaves the removal frees. */
  function Freed(l: int, c: int): int {
    if (c - 1) / K > l / K then (c - 1) / K - l / K - 1 else 0
  }

  lemma {:induction false} SlidingLength(f: FileMap, l: int, i: int, c: int)
    requires DoubleShape(f, c) && 0 <= l && l / K <= i && i * K < c
    ensures |Sliding(f, l, i)| ==
      c - (if l <= i * K then i * K else if l < c then l else c)
      + (if i == l / K then Freed(l, c) else (c - 1) / K - i)
    decreases c - i * K
  {
    if i * K + K < c {
      SlidingLength(f, l, i + 1, c);
    }
  }

  /** A cut that this module is about. */
  predicate CutsDouble(rec: InodeRec, n: int) {
    Start(2) < n < rec.blocks <= Start(3)
  }

  /** The double indirect tree of the file, as the removal finds it. */
  lemma DoubleFacts(d: seq<Block>, lo: int, head: int, w: World, rec: InodeRec, ino: int, n: int)
    requires InodeOk(d, lo, head, w, rec, ino) && CutsDouble(rec, n)
    ensures
      var f := w.files[ino];
      && DoubleShape(f, rec.blocks - Start(2)) && rec.double == f[2][2][0]
      && 0 < lo <= rec.double < |d| && rec.double in w.owner && w.owner[rec.double] == At(ino, 2, 2, 0)
      && (forall s :: 0 <= s < K ==> d[rec.double][s] == Entry(f[2][1], s))
  {
    var f := w.files[ino];
    assert |f[2][0]| == Need(2, 0, rec.blocks) && |f[2][1]| == Need(2, 1, rec.blocks) && |f[2][2]| == Need(2, 2, rec.blocks);
    SmallUp(DataIn(2, rec.blocks));
    assert w.owner[w.files[ino][2][2][0]] == At(ino, 2, 2, 0);
    assert Links(d, f[2][1 + 1], f[2][1]);
    assert forall s :: 0 <= s < K ==> d[f[2][2][0]][s] == Entry(f[2][1], 0 * K + s);
  }

  lemma LeafFacts(d: seq<Block>, lo: int, head: int, w: World, rec: InodeRec, ino: int, i: int)
    requires InodeOk(d, lo, head, w, rec, ino) && 0 <= i < |w.files[ino][2][1]|
    ensures
      var f := w.files[ino];
      var p := f[2][1][i];
      && 0 < lo <= p < |d| && p in w.owner && w.owner[p] == At(ino, 2, 1, i)
      && (forall s :: 0 <= s < K ==> d[p][s] == Entry(f[2][0], i * K + s))
  {
    var f := w.files[ino];
    LeafOwned(w.owner, w.files, ino, i);
    assert Links(d, f[2][0 + 1], f[2][0]);
  }

  /** A leaf at or behind leaf `q`. */
  ghost predicate LateLeaf(o: Owner, ino: int, q: int) {
    o.At? && o.ino == ino && o.r == 2 && o.j == 1 && q <= o.k
  }

  /** The disk to compare with when the leaves before `i` have been cleared. */
  ghost predicate LeavesBase(d: seq<Block>, w: World, ino: int, l: int, i: int, b: seq<Block>)
    requires 0 <= ino < |w.files| && 0 <= l
  {
    var p := w.files[ino][2][1];
    && |b| == |d|
    && (forall x :: 0 <= x < |d| && (x in w.owner ==> !LateLeaf(w.owner[x], ino, l / K)) ==> b[x] == d[x])
    && (forall m :: 0 <= i <= m < |p| && 0 <= p[m] < |d| ==> b[p[m]] == d[p[m]])
    && (l / K < i && l / K < |p| && 0 <= p[l / K] < |d| ==>
          forall s :: 0 <= s < K ==> b[p[l / K]][s] == if s < l % K then d[p[l / K]][s] else 0)
  }

  ghost predicate NoLeaves(f: FileMap, i: int, s: seq<int>) {
    forall m :: 0 <= i <= m < |f[2][1]| ==> f[2][1][m] !in s
  }

  lemma PartApart(owner: map<int, Owner>, files: seq<FileMap>, ino: int, l: int, i: int, done: seq<int>)
    requires PositionsOk(owner, files) && 0 <= ino < |files| && 0 <= l && 0 <= i && i * K <= |files[ino][2][0]|
    requires NoLeaves(files[ino], i, done)
    ensures NoLeaves(files[ino], i, done + LeafPart(files[ino], l, i))
  {
    LeafPartOwned(owner, files, ino, l, i);
    forall m | i <= m < |files[ino][2][1]| ensures files[ino][2][1][m] !in done + LeafPart(files[ino], l, i) {
      LeafOwned(owner, files, ino, m);
    }
  }

  lemma LeafApart(owner: map<int, Owner>, files: seq<FileMap>, ino: int, i: int, done: seq<int>)
    requires PositionsOk(owner, files) && 0 <= ino < |files| && 0 <= i < |files[ino][2][1]|
    requires NoLeaves(files[ino], i, done)
    ensures NoLeaves(files[ino], i + 1, done + [files[ino][2][1][i]]) && NoLeaves(files[ino], i + 1, done)
  {
    TierDistinct(owner, files, ino, 2, 1);
  }

  /** Clearing leaf `i` moves the disk to compare with one leaf on. */
  lemma BaseNext(d: seq<Block>, lo: int, head: int, w: World, rec: InodeRec, ino: int, l: int, i: int, b: seq<Block>, buffer: Block)
    requires InodeOk(d, lo, head, w, rec, ino) && 0 <= l && l / K <= i < |w.files[ino][2][1]|
    requires LeavesBase(d, w, ino, l, i, b)
    requires i == l / K ==>
      forall s :: 0 <= s < K ==> buffer[s] == if s < l % K then d[w.files[ino][2][1][i]][s] else 0
    requires 0 <= w.files[ino][2][1][i] < |d|
    ensures LeavesBase(d, w, ino, l, i + 1, b[w.files[ino][2][1][i] := buffer])
  {
    hide FileOk, WorldOk;
    FactsOf(d, lo, head, w, rec, ino);
    LeafOwned(w.owner, w.files, ino, i);
    TierDistinct(w.owner, w.files, ino, 2, 1);
  }

  lemma LeafValues(f: FileMap, c: int, l: int, i: int)
    requires DoubleShape(f, c) && 0 <= l < c && l / K <= i && i * K < c
    ensures
      var t, j := Children(f, i), if i == l / K then l % K else 0;
      && |t| == (if c - i * K < K then c - i * K else K) && 0 <= j <= |t|
      && (forall k :: 0 <= k < K ==> Entry(t, k) == Entry(f[2][0], i * K + k))
      && LeafPart(f, l, i) == Drop(t, j)
  {
  }

  /** Frees the data blocks behind the cut that leaf `p`, the `i`-th, lists, and clears
      their slots in it. */
  method ClearLeaf(disk: Disk, p: int, j: int, ending: int, ghost d: seq<Block>, ghost head: int, ghost w: World,
                   ghost rec: InodeRec, ghost ino: int, ghost n: int, ghost i: int, ghost b: seq<Block>,
                   ghost done: seq<int>, ghost tail: seq<int>)
    returns (ok: bool, next: int, ghost b': seq<Block>)
    requires InodeOk(d, disk.inodeBlocks + 1, head, w, rec, ino) && CutsDouble(rec, n)
    requires (n - Start(2)) / K <= i < |w.files[ino][2][1]| && p == w.files[ino][2][1][i]
    requires i * K <= |w.files[ino][2][0]|
    requires j == if i == (n - Start(2)) / K then (n - Start(2)) % K else 0
    requires ending == rec.blocks - Start(2) - i * K
    requires LeavesBase(d, w, ino, n - Start(2), i, b) && NoLeaves(w.files[ino], i, done)
    requires Freeing(disk, b, Detach(w, ino, Cut(w.files[ino], n)), done, LeafPart(w.files[ino], n - Start(2), i) + tail)
    modifies disk`freelistHead, disk`w, disk.store
    ensures ok && LeavesBase(d, w, ino, n - Start(2), i + 1, b') && next == if ending < K then ending else K
    ensures NoLeaves(w.files[ino], i + 1, done + LeafPart(w.files[ino], n - Start(2), i))
    ensures NoLeaves(w.files[ino], i + 1, done + LeafPart(w.files[ino], n - Start(2), i) + [p])
    ensures Freeing(disk, b', Detach(w, ino, Cut(w.files[ino], n)), done + LeafPart(w.files[ino], n - Start(2), i), tail)
  {
    hide FileOk, WorldOk, Freeing, LeafPart, Cut, Children, Drop, LeavesBase, NoLeaves, Detach;
    ghost var lo, f, l, w1 := disk.inodeBlocks + 1, w.files[ino], n - Start(2), Detach(w, ino, Cut(w.files[ino], n));
    ghost var part, t := LeafPart(f, l, i), Children(f, i);
    FactsOf(d, lo, head, w, rec, ino);
    DoubleFacts(d, lo, head, w, rec, ino, n);
    LeafFacts(d, lo, head, w, rec, ino, i);
    LeafValues(f, rec.blocks - Start(2), l, i);
    PartApart(w.owner, w.files, ino, l, i, done);
    LeafApart(w.owner, w.files, ino, i, done + part);
    LeafStays(disk, d, w, ino, n, l, i, b, done, part + tail);
    var _, buffer := disk.ReadDataBlock(p);
    assert forall k :: 0 <= k < K ==> buffer[k] == Entry(t, k);
    var buffer';
    ok, buffer', next := ClearSlots(disk, buffer, j, ending, b, w1, done, t, tail);
    if !ok {
      return;
    }
    LeafStays(disk, d, w, ino, n, l, i, b, done + part, tail);
    FreeingBase(disk, b, w1, done + part, tail, p, buffer');
    var written := disk.WriteDataBlock(p, buffer');
    if !written {
      return false, next, b;
    }
    b' := b[p := buffer'];
    FreeingAgain(disk, b', w1, done + part, tail);
    BaseNext(d, lo, head, w, rec, ino, l, i, b, buffer');
  }

  /** Leaf `i` has not been touched yet. */
  lemma LeafStays(disk: Disk, d: seq<Block>, w: World, ino: int, n: int, l: int, i: int, b: seq<Block>,
                  done: seq<int>, rest: seq<int>)
    requires 0 <= ino < |w.files| && 0 <= l && 0 <= i < |w.files[ino][2][1]|
    requires LeavesBase(d, w, ino, l, i, b) && NoLeaves(w.files[ino], i, done)
    requires Freeing(disk, b, Detach(w, ino, Cut(w.files[ino], n)), done, rest)
    requires
      var p := w.files[ino][2][1][i];
      0 <= p < |d| && p in w.owner && w.owner[p] == At(ino, 2, 1, i)
    ensures
      var p, w1 := w.files[ino][2][1][i], Detach(w, ino, Cut(w.files[ino], n));
      && |b| == |d| == |disk.D()| && p in w1.owner && !w1.owner[p].Free() && p !in done
      && disk.D()[p] == d[p]
  {
    hide Cut;
  }

  /** What the removal leaves: the data blocks behind the cut and the leaves strictly
      between the first and the last are free, the other leaves that the shorter map
      does not need belong to nobody, and nothing else has moved. */
  ghost predicate CutInDouble(d: seq<Block>, w: World, rec: InodeRec, d': seq<Block>, w': World, rec': InodeRec,
                              ino: int, n: int)
    requires 0 <= ino < |w.files| && CutsDouble(rec, n)
  {
    var l, c, p := n - Start(2), rec.blocks - Start(2), w.files[ino][2][1];
    && |d'| == |d| && w'.files == w.files[ino := Cut(w.files[ino], n)] && w'.owner.Keys == w.owner.Keys
    && rec' == rec.(blocks := n)
    && (forall x :: x in w.owner && Slides(w.owner[x], ino, l, l / K, c) ==> w'.owner[x].Free())
    && (forall x :: x in w.owner && Beyond(w.owner[x], ino, n) && !Slides(w.owner[x], ino, l, l / K, c) ==>
          w'.owner[x] == Held)
    && (forall x :: x in w.owner && !Beyond(w.owner[x], ino, n) ==> w'.owner[x] == w.owner[x])
    && (forall x :: 0 <= x < |d| && (x in w.owner ==>
            !w.owner[x].Free() && !Beyond(w.owner[x], ino, n) && !LateLeaf(w.owner[x], ino, l / K)) ==>
          d'[x] == d[x])
    && (l / K < |p| && 0 <= p[l / K] < |d| ==>
          forall s :: 0 <= s < K ==> d'[p[l / K]][s] == if s < l % K then d[p[l / K]][s] else 0)
    && NumFree(w'.owner) == NumFree(w.owner) + (rec.blocks - n) + Freed(l, c)
  }

  /** Every block that the removal frees lies behind the cut. */
  lemma SlidesBeyond(d: seq<Block>, lo: int, head: int, w: World, rec: InodeRec, ino: int, n: int, x: int)
    requires InodeOk(d, lo, head, w, rec, ino) && CutsDouble(rec, n) && x in w.owner
    ensures
      Slides(w.owner[x], ino, n - Start(2), (n - Start(2)) / K, rec.blocks - Start(2)) ==> Beyond(w.owner[x], ino, n)
    ensures LateLeaf(w.owner[x], ino, (n - Start(2)) / K + 1) ==> Beyond(w.owner[x], ino, n)
  {
    UpValues(DataIn(2, n));
    assert Need(2, 0, n) == n - Start(2);
  }

  /** A cut at any place: the blocks behind it are taken out of the inode. */
  lemma AnyCut(d: seq<Block>, lo: int, head: int, w: World, rec: InodeRec, ino: int, n: int)
    requires InodeOk(d, lo, head, w, rec, ino) && 0 <= n <= rec.blocks
    ensures
      var w1 := Detach(w, ino, Cut(w.files[ino], n));
      && WorldOk(d, lo, head, w1) && NumFree(w1.owner) == NumFree(w.owner) && w1.owner.Keys == w.owner.Keys
      && (forall x :: x in w.owner ==>
            w1.owner[x] == if Beyond(w.owner[x], ino, n) then Held else w.owner[x])
  {
    hide WorldOk, FileOk, Cut, Beyond, Dropped, NumFree;
    FactsOf(d, lo, head, w, rec, ino);
    CutShape(w.files[ino], n, rec.blocks);
    DetachOk(d, lo, head, w, ino, Cut(w.files[ino], n));
    forall x | x in w.owner
      ensures Detach(w, ino, Cut(w.files[ino], n)).owner[x] == if Beyond(w.owner[x], ino, n) then Held else w.owner[x]
    {
      BeyondOwner(d, lo, head, w, rec, ino, n, x);
    }
  }

  lemma DoubleReady(d: seq<Block>, lo: int, head: int, w: World, rec: InodeRec, ino: int, n: int)
    requires InodeOk(d, lo, head, w, rec, ino) && CutsDouble(rec, n)
    ensures
      var w1, l, c := Detach(w, ino, Cut(w.files[ino], n)), n - Start(2), rec.blocks - Start(2);
      var s := Sliding(w.files[ino], l, l / K);
      && WorldOk(d, lo, head, w1) && AllHeld(w1, s) && Distinct(s) && |s| == rec.blocks - n + Freed(l, c)
      && (forall x :: x in s <==> x in w.owner && Slides(w.owner[x], ino, l, l / K, c))
      && LeavesBase(d, w, ino, l, l / K, d)
  {
    hide WorldOk, FileOk, Cut, Beyond, Slides, Sliding, Detach, NumFree, Distinct;
    var l, c := n - Start(2), rec.blocks - Start(2);
    FactsOf(d, lo, head, w, rec, ino);
    DoubleFacts(d, lo, head, w, rec, ino, n);
    AnyCut(d, lo, head, w, rec, ino, n);
    SlidingOwned(w.owner, w.files, ino, l, l / K, c);
    SlidingLength(w.files[ino], l, l / K, c);
    forall x | x in w.owner
      ensures Slides(w.owner[x], ino, l, l / K, c) ==> Beyond(w.owner[x], ino, n)
    {
      SlidesBeyond(d, lo, head, w, rec, ino, n, x);
    }
  }

  lemma DoubleDone(d: seq<Block>, lo: int, head: int, w: World, rec: InodeRec, ino: int, n: int,
                   b: seq<Block>, d': seq<Block>, w': World)
    requires InodeOk(d, lo, head, w, rec, ino) && CutsDouble(rec, n)
    requires LeavesBase(d, w, ino, n - Start(2), |w.files[ino][2][1]|, b)
    requires Released(b, Detach(w, ino, Cut(w.files[ino], n)), d', w',
                      Sliding(w.files[ino], n - Start(2), (n - Start(2)) / K))
    ensures CutInDouble(d, w, rec, d', w', rec.(blocks := n), ino, n)
  {
    hide WorldOk, FileOk, Cut, Beyond, Slides, Sliding, NumFree, Distinct, LateLeaf, Dropped;
    var l, c, p := n - Start(2), rec.blocks - Start(2), w.files[ino][2][1];
    FactsOf(d, lo, head, w, rec, ino);
    DoubleFacts(d, lo, head, w, rec, ino, n);
    DoubleReady(d, lo, head, w, rec, ino, n);
    AnyCut(d, lo, head, w, rec, ino, n);
    forall x | x in w.owner
      ensures Slides(w.owner[x], ino, l, l / K, c) ==> Beyond(w.owner[x], ino, n)
    {
      SlidesBeyond(d, lo, head, w, rec, ino, n, x);
    }
    LeafFacts(d, lo, head, w, rec, ino, l / K);
    FirstLeafStays(ino, l, c);
    assert !Slides(w.owner[p[l / K]], ino, l, l / K, c);
  }

  lemma FirstLeafStays(ino: int, l: int, c: int)
    ensures !Slides(At(ino, 2, 1, l / K), ino, l, l / K, c)
  {
  }

  /** The cut and the end of the file share a leaf, and the cut does not empty it. */
  predicate SameLeaf(blocks: int, n: int) {
    (n - Start(2)) % K != 0 && (blocks - 1 - Start(2)) / K == (n - Start(2)) / K
  }

  /** What is left to free when leaf `i` comes next. */
  lemma SlidingNext(f: FileMap, l: int, i: int, c: int, done: seq<int>)
    requires DoubleShape(f, c) && 0 <= l && l / K <= i && i * K < c
    ensures i < K && i < |f[2][1]|
    ensures c <= i * K + K ==>
      && Sliding(f, l, i) == LeafPart(f, l, i) + [] && i + 1 == |f[2][1]|
      && done + Sliding(f, l, i) == done + LeafPart(f, l, i)
    ensures i * K + K < c ==>
      var mid := if l / K < i then [f[2][1][i]] else [];
      && i + 1 < |f[2][1]| <= K && (l / K < i ==> mid == [f[2][1][i]])
      && Sliding(f, l, i) == LeafPart(f, l, i) + (mid + Sliding(f, l, i + 1))
      && (l / K == i ==> mid + Sliding(f, l, i + 1) == Sliding(f, l, i + 1))
      && done + Sliding(f, l, i) == done + LeafPart(f, l, i) + mid + Sliding(f, l, i + 1)
      && (l / K == i ==> done + LeafPart(f, l, i) + mid == done + LeafPart(f, l, i))
  {
    hide LeafPart;
    assert LeafPart(f, l, i) + [] == LeafPart(f, l, i);
  }

  /** Frees the data blocks behind position `l` of the double indirect tree, leaf by leaf;
      `ending` counts the blocks from the start of the current leaf to the end of the file. */
  method FreeLeaves(disk: Disk, root: Block, l: int, blocks: int, ghost d: seq<Block>, ghost head: int, ghost w: World,
                    ghost rec: InodeRec, ghost ino: int, ghost n: int)
    returns (ok: bool, ending: int, ghost b: seq<Block>)
    requires InodeOk(d, disk.inodeBlocks + 1, head, w, rec, ino) && CutsDouble(rec, n)
    requires l == n - Start(2) && blocks == rec.blocks && DoubleShape(w.files[ino], blocks - Start(2))
    requires forall s :: 0 <= s < K ==> root[s] == Entry(w.files[ino][2][1], s)
    requires LeavesBase(d, w, ino, l, l / K, d)
    requires Freeing(disk, d, Detach(w, ino, Cut(w.files[ino], n)), [], Sliding(w.files[ino], l, l / K))
    modifies disk`freelistHead, disk`w, disk.store
    ensures ok && ending <= K * K && LeavesBase(d, w, ino, l, |w.files[ino][2][1]|, b)
    ensures Freeing(disk, b, Detach(w, ino, Cut(w.files[ino], n)), Sliding(w.files[ino], l, l / K), [])
  {
    hide WorldOk, FileOk, Freeing, LeafPart, Cut, LeavesBase, NoLeaves, Detach, Sliding;
    ghost var w1, f, c, all := Detach(w, ino, Cut(w.files[ino], n)), w.files[ino], blocks - Start(2), Sliding(w.files[ino], l, l / K);
    ghost var done := [];
    var q, inner := l / K, l % K;
    ending := blocks - (K + DIRECT) - K * q;
    var i := q;
    b := d;
    NothingApart(f, i);
    EmptyFirst(all);
    while i < K
      invariant q <= i && i * K < c && ending == c - i * K
      invariant LeavesBase(d, w, ino, l, i, b) && NoLeaves(f, i, done)
      invariant Freeing(disk, b, w1, done, Sliding(f, l, i)) && done + Sliding(f, l, i) == all
    {
      var j := if i == q then inner else 0;
      var p := root[i];
      SlidingNext(f, l, i, c, done);
      LeafPositive(d, disk.inodeBlocks + 1, head, w, rec, ino, i);
      if p <= 0 {
        return false, ending, b;
      }
      ghost var mid := if q < i then [p] else [];
      ok, j, b := ClearLeaf(disk, p, j, ending, d, head, w, rec, ino, n, i, b, done,
                            if c <= i * K + K then [] else mid + Sliding(f, l, i + 1));
      if !ok {
        return;
      }
      done := done + LeafPart(f, l, i);
      if j == ending {
        break;
      }
      ending := ending - K;
      if !(i == q && j > 0) {
        ok := FreeNext(disk, p, b, w1, done, Sliding(f, l, i + 1));
        if !ok {
          return;
        }
        done := done + [p];
      }
      i := i + 1;
    }
    ok := true;
  }

  lemma EmptyFirst(s: seq<int>)
    ensures [] + s == s
  {
  }

  lemma LeafPositive(d: seq<Block>, lo: int, head: int, w: World, rec: InodeRec, ino: int, i: int)
    requires InodeOk(d, lo, head, w, rec, ino) && 0 <= i < |w.files[ino][2][1]|
    ensures w.files[ino][2][1][i] > 0
  {
    LeafFacts(d, lo, head, w, rec, ino, i);
  }

  lemma NothingApart(f: FileMap, i: int)
    ensures NoLeaves(f, i, [])
  {
  }

  /** Removes the data blocks from `n` on. */
  method RemoveFromDouble(disk: Disk, node: Inode, ghost ino: int, n: int) returns (ok: bool)
    requires InodeOk(disk.D(), disk.inodeBlocks + 1, disk.freelistHead, disk.w, node.Rec(), ino)
    requires disk.freelistHead != 0 && CutsDouble(node.Rec(), n)
    modifies disk`freelistHead, disk`w, disk.store, node
    ensures ok && disk.Sound() && disk.freelistHead != 0
    ensures CutInDouble(old(disk.D()), old(disk.w), old(node.Rec()), disk.D(), disk.w, node.Rec(), ino, n)
  {
    hide WorldOk, FileOk, Freeing, Cut, LeavesBase, Detach, Sliding, CutInDouble, AllHeld, Distinct, Released, Slides;
    ghost var d, w, rec, f, lo, head := disk.D(), disk.w, node.Rec(), disk.w.files[ino], disk.inodeBlocks + 1, disk.freelistHead;
    DoubleFacts(d, lo, head, w, rec, ino, n);
    ghost var w1, all := Detach(w, ino, Cut(f, n)), Sliding(f, n - Start(2), (n - Start(2)) / K);
    DoubleReady(d, lo, head, w, rec, ino, n);
    disk.w := w1;
    FreeingStart(disk, d, w1, all);
    if node.double == 0 {
      return false;
    }
    var _, root := disk.ReadDataBlock(node.double);
    var ending;
    ghost var b;
    ok, ending, b := FreeLeaves(disk, root, n - DIRECT - K, node.blocks, d, head, w, rec, ino, n);
    if !ok {
      return false;
    }
    FreeingDone(disk, b, w1, all);
    DoubleDone(d, lo, head, w, rec, ino, n, b, disk.D(), disk.w);
    if ending <= K * K {
      node.blocks := n;
      return true;
    }
    return false;
  }

  function Word(d: seq<Block>, p: int, s: int): int
    requires 0 <= s < K
  {
    if 0 <= p < |d| then d[p][s] else 0
  }

  /** The disk block of logical block `l`, by walking from the inode through the blocks
      on the disk, whether or not the trees are in order. */
  function Resolve(d: seq<Block>, rec: InodeRec, l: int): int
    requires 0 <= l < Start(3)
  {
    if l < DIRECT then (if l < |rec.direct| then rec.direct[l] else 0)
    else if l < Start(2) then Word(d, rec.single, l - DIRECT)
    else Word(d, Word(d, rec.double, (l - Start(2)) / K), (l - Start(2)) % K)
  }

  /** In a file in order the walk finds the block map. */
  lemma ResolveOk(d: seq<Block>, lo: int, head: int, w: World, rec: InodeRec, ino: int, l: int)
    requires InodeOk(d, lo, head, w, rec, ino) && 0 <= l < rec.blocks && l < Start(3)
    ensures Resolve(d, rec, l) == DataAt(w.files[ino], l)
  {
    hide WorldOk, TreesOk, Shaped, DataIn, Need;
    LookupSizes(w.files[ino], rec.blocks, l);
    var c := l - Start(Region(l));
    if Region(l) == 1 {
      SlotValue(d, lo, head, w, rec, ino, 1, 0, c);
    } else if Region(l) == 2 {
      SlotValue(d, lo, head, w, rec, ino, 2, 1, c / K);
      SlotValue(d, lo, head, w, rec, ino, 2, 0, c);
    }
  }

  /** The removal keeps the index blocks that the first `n` blocks are found through. */
  lemma PathKept(d: seq<Block>, lo: int, head: int, w: World, rec: InodeRec, d': seq<Block>, w': World, rec': InodeRec,
                 ino: int, n: int)
    requires InodeOk(d, lo, head, w, rec, ino) && CutsDouble(rec, n)
    requires CutInDouble(d, w, rec, d', w', rec', ino, n)
    ensures |d'| == |d| && rec' == rec.(blocks := n)
    ensures 0 <= rec.single < |d| && d'[rec.single] == d[rec.single]
    ensures 0 <= rec.double < |d| && d'[rec.double] == d[rec.double]
    ensures forall i :: 0 <= i < (n - Start(2)) / K ==>
      && i < |w.files[ino][2][1]| && 0 <= w.files[ino][2][1][i] < |d|
      && d'[w.files[ino][2][1][i]] == d[w.files[ino][2][1][i]]
  {
    hide WorldOk, TreesOk, NumFree, Cut, Slides;
    var f, q := w.files[ino], (n - Start(2)) / K;
    FactsOf(d, lo, head, w, rec, ino);
    DoubleFacts(d, lo, head, w, rec, ino, n);
    NeedsOf(n);
    assert |f[1][1]| == Need(1, 1, rec.blocks);
    SmallUp(DataIn(1, rec.blocks));
    assert w.owner[w.files[ino][1][1][0]] == At(ino, 1, 1, 0);
    RootPositive(d, lo, head, w, rec, ino, 1);
    forall i | 0 <= i < q
      ensures i < |f[2][1]| && 0 <= f[2][1][i] < |d| && d'[f[2][1][i]] == d[f[2][1][i]]
    {
      LeafFacts(d, lo, head, w, rec, ino, i);
    }
  }

  lemma NeedsOf(n: int)
    requires Start(2) < n <= Start(3)
    ensures Need(1, 1, n) == 1 && Need(2, 2, n) == 1 && Need(2, 1, n) == (n - Start(2) - 1) / K + 1
    ensures Need(2, 0, n) == n - Start(2) && Need(0, 0, n) == DIRECT && Need(1, 0, n) == K
    ensures forall r, j :: 0 <= r < 4 && 0 <= j < 4 && (r == 3 || j > r) ==> Need(r, j, n) == 0
  {
    SmallUp(DataIn(1, n));
    SmallUp(DataIn(2, n));
    SmallUp(DataIn(3, n));
  }

  /** The first `n` blocks are still found where they were. */
  lemma PrefixKept(d: seq<Block>, lo: int, head: int, w: World, rec: InodeRec, d': seq<Block>, w': World, rec': InodeRec,
                   ino: int, n: int, l: int)
    requires InodeOk(d, lo, head, w, rec, ino) && CutsDouble(rec, n) && 0 <= l < n
    requires CutInDouble(d, w, rec, d', w', rec', ino, n)
    ensures Resolve(d', rec', l) == DataAt(w.files[ino], l)
  {
    hide WorldOk, TreesOk, Shaped, DataIn, Need, NumFree, Cut, Slides, Beyond;
    PathKept(d, lo, head, w, rec, d', w', rec', ino, n);
    ResolveOk(d, lo, head, w, rec, ino, l);
    DoubleFacts(d, lo, head, w, rec, ino, n);
    if l >= Start(2) {
      var i := (l - Start(2)) / K;
      LeafFacts(d, lo, head, w, rec, ino, i);
    }
  }

  /** With one leaf affected, only the data blocks of the map change. */
  lemma SameLeafCut(f: FileMap, m: int, n: int)
    requires Start(2) < n < m <= Start(3) && Shaped(f, m)
    requires (n - Start(2)) % K != 0 && (m - 1 - Start(2)) / K == (n - Start(2)) / K
    ensures Shaped(Cut(f, n), n)
    ensures forall r, j :: 0 <= r < 4 && 0 <= j < 4 && !(r == 2 && j == 0) ==> Cut(f, n)[r][j] == f[r][j]
    ensures Cut(f, n)[2][0] == f[2][0][..n - Start(2)]
    ensures forall j :: 0 <= j < 4 ==> f[3][j] == []
    ensures |f[2][1]| == (n - Start(2)) / K + 1 && IndexBlocks(m) == IndexBlocks(n)
  {
    hide Shaped, Need;
    CutShape(f, n, m);
    NeedsOf(n);
    NeedsOf(m);
    ShapedSize(f, m);
    forall r, j | 0 <= r < 4 && 0 <= j < 4 && !(r == 2 && j == 0) ensures Cut(f, n)[r][j] == f[r][j] {
      assert Need(r, j, n) == Need(r, j, m);
    }
  }

  /** The leaves of the shorter tree. */
  lemma LeavesCut(d: seq<Block>, ps: seq<int>, cs: seq<int>, l: int, d': seq<Block>)
    requires Links(d, ps, cs) && 0 <= l <= |cs| && |ps| == l / K + 1 && |d'| == |d|
    requires forall i :: 0 <= i < l / K ==> d'[ps[i]] == d[ps[i]]
    requires forall s :: 0 <= s < K ==> d'[ps[l / K]][s] == if s < l % K then d[ps[l / K]][s] else 0
    ensures Links(d', ps, cs[..l])
  {
    forall i, s | 0 <= i < |ps| && 0 <= s < K ensures d'[ps[i]][s] == Entry(cs[..l], i * K + s) {
      assert d[ps[i]][s] == Entry(cs, i * K + s);
    }
  }

  lemma ExactTrees(d: seq<Block>, lo: int, head: int, w: World, rec: InodeRec, d': seq<Block>, w': World,
                   rec': InodeRec, ino: int, n: int)
    requires InodeOk(d, lo, head, w, rec, ino) && CutsDouble(rec, n) && SameLeaf(rec.blocks, n)
    requires CutInDouble(d, w, rec, d', w', rec', ino, n)
    ensures FileOk(d', rec', Cut(w.files[ino], n))
  {
    hide WorldOk, Need, Slides, Beyond, NumFree, Shaped, Links, Cut;
    var f, f' := w.files[ino], Cut(w.files[ino], n);
    FactsOf(d, lo, head, w, rec, ino);
    PathKept(d, lo, head, w, rec, d', w', rec', ino, n);
    DoubleFacts(d, lo, head, w, rec, ino, n);
    SameLeafCut(f, rec.blocks, n);
    LeafFacts(d, lo, head, w, rec, ino, (n - Start(2)) / K);
    assert Links(d, f[1][0 + 1], f[1][0]) && Links(d, f[2][0 + 1], f[2][0]) && Links(d, f[2][1 + 1], f[2][1]);
    LinksFrame(d, d', f[1][1], f[1][0]);
    LinksFrame(d, d', f[2][2], f[2][1]);
    LeavesCut(d, f[2][1], f[2][0], n - Start(2), d');
    NoLinks(d');
    forall r, j | 0 <= j < r < 4 ensures Links(d', f'[r][j + 1], f'[r][j]) {
    }
  }

  lemma NoLinks(d: seq<Block>)
    ensures Links(d, [], [])
  {
  }

  /** With one leaf affected, exactly the data blocks behind the cut are freed. */
  lemma SameLeafSlides(d: seq<Block>, lo: int, head: int, w: World, rec: InodeRec, ino: int, n: int, x: int)
    requires InodeOk(d, lo, head, w, rec, ino) && CutsDouble(rec, n) && SameLeaf(rec.blocks, n) && x in w.owner
    ensures Beyond(w.owner[x], ino, n) ==>
      Slides(w.owner[x], ino, n - Start(2), (n - Start(2)) / K, rec.blocks - Start(2))
    ensures LateLeaf(w.owner[x], ino, (n - Start(2)) / K) ==> !Stable(w.owner[x], ino)
  {
    hide Shaped, Cut;
    FactsOf(d, lo, head, w, rec, ino);
    SameLeafCut(w.files[ino], rec.blocks, n);
    ShapedSize(Cut(w.files[ino], n), n);
    if w.owner[x].At? {
      assert PositionHolds(w.files, w.owner[x], x);
    }
  }

  lemma ExactRemoval(d: seq<Block>, lo: int, head: int, w: World, rec: InodeRec, d': seq<Block>, w': World,
                     rec': InodeRec, ino: int, n: int)
    requires InodeOk(d, lo, head, w, rec, ino) && CutsDouble(rec, n) && SameLeaf(rec.blocks, n)
    requires CutInDouble(d, w, rec, d', w', rec', ino, n)
    ensures FileOk(d', rec', Cut(w.files[ino], n))
    ensures Truncated(d, w, rec, d', w', rec', ino, n)
  {
    hide WorldOk, FileOk, Need, Slides, Beyond, NumFree, Cut, LateLeaf, Stable, IndexBlocks;
    FactsOf(d, lo, head, w, rec, ino);
    ExactTrees(d, lo, head, w, rec, d', w', rec', ino, n);
    SameLeafCut(w.files[ino], rec.blocks, n);
    forall x | x in w.owner
      ensures Beyond(w.owner[x], ino, n) ==>
        Slides(w.owner[x], ino, n - Start(2), (n - Start(2)) / K, rec.blocks - Start(2))
      ensures Stable(w.owner[x], ino) ==> !LateLeaf(w.owner[x], ino, (n - Start(2)) / K) && !w.owner[x].Free()
    {
      SameLeafSlides(d, lo, head, w, rec, ino, n, x);
      StableHeld(w.owner[x], ino);
    }
  }

  lemma StableHeld(o: Owner, ino: int)
    ensures Stable(o, ino) ==> !o.Free()
  {
  }

  /** Some tree represents the shorter file exactly when the cut and the end of the file
      share a leaf that the cut does not empty. */
  lemma RemovalExactIff(d: seq<Block>, lo: int, head: int, w: World, rec: InodeRec, d': seq<Block>, w': World,
                        rec': InodeRec, ino: int, n: int)
    requires InodeOk(d, lo, head, w, rec, ino) && CutsDouble(rec, n)
    requires CutInDouble(d, w, rec, d', w', rec', ino, n)
    ensures (exists f': FileMap :: FileOk(d', rec', f')) <==> SameLeaf(rec.blocks, n)
    ensures SameLeaf(rec.blocks, n) ==> Truncated(d, w, rec, d', w', rec', ino, n)
  {
    hide WorldOk, FileOk, CutInDouble, Truncated, Cut;
    if SameLeaf(rec.blocks, n) {
      ExactRemoval(d, lo, head, w, rec, d', w', rec', ino, n);
      assert FileOk(d', rec', Cut(w.files[ino], n));
    } else {
      forall f': FileMap ensures !FileOk(d', rec', f') {
        StaleRoot(d, lo, head, w, rec, d', w', rec', ino, n, f');
      }
    }
  }

  /** The root lists one leaf more than the shorter file has. */
  lemma StaleRoot(d: seq<Block>, lo: int, head: int, w: World, rec: InodeRec, d': seq<Block>, w': World,
                  rec': InodeRec, ino: int, n: int, f': FileMap)
    requires InodeOk(d, lo, head, w, rec, ino) && CutsDouble(rec, n) && !SameLeaf(rec.blocks, n)
    requires CutInDouble(d, w, rec, d', w', rec', ino, n)
    ensures !FileOk(d', rec', f')
  {
    hide WorldOk, CutInDouble, Need;
    PathKept(d, lo, head, w, rec, d', w', rec', ino, n);
    DoubleFacts(d, lo, head, w, rec, ino, n);
    NeedsOf(n);
    var s := (n - Start(2) - 1) / K + 1;
    LeafFacts(d, lo, head, w, rec, ino, s);
    if FileOk(d', rec', f') {
      RootSlot(d', rec', f', n, s);
    }
  }

  /** The root lists exactly the leaves, then zeros. */
  lemma RootSlot(d: seq<Block>, rec: InodeRec, f: FileMap, n: int, s: int)
    requires FileOk(d, rec, f) && rec.blocks == n && Start(2) < n <= Start(3) && 0 <= s < K
    ensures 0 <= rec.double < |d| && d[rec.double][s] == Entry(f[2][1], s) && |f[2][1]| == (n - Start(2) - 1) / K + 1
  {
    NeedsOf(n);
    assert |f[2][1]| == Need(2, 1, n) && |f[2][2]| == Need(2, 2, n);
    assert Links(d, f[2][1 + 1], f[2][1]);
    assert d[f[2][2][0]][s] == Entry(f[2][1], 0 * K + s);
  }

  /** A file of 1040 blocks cut at block 525: the cut leaves one block in leaf 0, the file ends
      in leaf 1, and the root still lists leaf 1 afterwards. */
  lemma RemovalFails(d: seq<Block>, lo: int, head: int, w: World, rec: InodeRec, d': seq<Block>, w': World,
                     rec': InodeRec, ino: int)
    requires InodeOk(d, lo, head, w, rec, ino) && rec.blocks == 1040
    requires CutInDouble(d, w, rec, d', w', rec', ino, 525)
    ensures !exists f': FileMap :: FileOk(d', rec', f')
    ensures 0 <= rec'.double < |d'| && d'[rec'.double][1] == w.files[ino][2][1][1] != 0
  {
    hide WorldOk, FileOk, CutInDouble, Truncated, Cut;
    RemovalExactIff(d, lo, head, w, rec, d', w', rec', ino, 525);
    PathKept(d, lo, head, w, rec, d', w', rec', ino, 525);
    DoubleFacts(d, lo, head, w, rec, ino, 525);
    LeafFacts(d, lo, head, w, rec, ino, 1);
  }
}
