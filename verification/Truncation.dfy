/** Removing the blocks of an inode from a logical block on. */
module Truncation {
  import opened Blocks
  import opened Ownership
  import opened BlockMap
  import opened Attaching
  import opened Walks
  import opened Cutting
  import opened Releasing
  import opened Lookup
  import opened Append

  /** The blocks freed by removing the blocks from `n` on, in order, when the cut
      is in the direct blocks (`q == 0`) or the single indirect block (`q == 1`). */
  ghost function Doomed(d: seq<Block>, f: FileMap, q: int, n: int): seq<int>
    requires 0 <= q <= 1 && Start(q) <= n
  {
    Drop(f[q][0], n - Start(q))
    + (if q < 1 then RegionWalk(d, f, 1) else []) + RegionWalk(d, f, 2) + RegionWalk(d, f, 3)
  }

  function Drop(s: seq<int>, k: int): seq<int>
    requires 0 <= k
  {
    if k <= |s| then s[k..] else []
  }

  /** The region that a cut at `n` falls in: a full region counts as the cut's. */
  function CutRegion(n: int): int {
    if n <= DIRECT then 0 else 1
  }

  /** A place that a map of `n` blocks does not have. */
  ghost predicate Beyond(o: Owner, ino: int, n: int) {
    o.At? && o.ino == ino && 0 <= o.r < 4 && 0 <= o.j && Need(o.r, o.j, n) <= o.k
  }

  /** Inode `ino` has been cut to its first `n` blocks: the map is the prefix, and
      exactly the data and index blocks it no longer needs are free. */
  ghost predicate Truncated(d: seq<Block>, w: World, rec: InodeRec, d': seq<Block>, w': World, rec': InodeRec,
                            ino: int, n: int)
    requires 0 <= ino < |w.files| && 0 <= n <= rec.blocks <= MAX_BLOCKS
  {
    && |d'| == |d| && w'.files == w.files[ino := Cut(w.files[ino], n)] && w'.owner.Keys == w.owner.Keys
    && rec'.blocks == n && SameAttributes(rec, rec') && FileOk(d', rec', w'.files[ino])
    && (forall x :: x in w.owner && Beyond(w.owner[x], ino, n) ==> w'.owner[x].Free())
    && (forall x :: x in w.owner && !Beyond(w.owner[x], ino, n) ==> w'.owner[x] == w.owner[x])
    && (forall x :: 0 <= x < |d| && (x in w.owner ==> Stable(w.owner[x], ino) && !Beyond(w.owner[x], ino, n)) ==>
          d'[x] == d[x])
    && NumFree(w'.owner) == NumFree(w.owner) + (rec.blocks - n) + IndexBlocks(rec.blocks) - IndexBlocks(n)
  }

  ghost predicate InPart(o: Owner, ino: int, q: int, c: int) {
    o.At? && o.ino == ino && o.r == q && o.j == 0 && c <= o.k
  }

  lemma PartOwned(owner: map<int, Owner>, files: seq<FileMap>, ino: int, q: int, c: int)
    requires PositionsOk(owner, files) && 0 <= ino < |files| && 0 <= q < 4 && 0 <= c
    ensures
      var s := Drop(files[ino][q][0], c);
      Distinct(s) && forall x :: x in s <==> x in owner && InPart(owner[x], ino, q, c)
  {
    var t, s := files[ino][q][0], Drop(files[ino][q][0], c);
    TierDistinct(owner, files, ino, q, 0);
    forall i | 0 <= i < |s| ensures s[i] in owner && owner[s[i]] == At(ino, q, 0, c + i) {
      assert files[ino][q][0][c + i] == s[i];
    }
    forall x | x in owner && InPart(owner[x], ino, q, c) ensures x in s {
      assert PositionHolds(files, owner[x], x);
      assert s[owner[x].k - c] == x;
    }
  }

  /** Beyond a cut in the direct or single region lie the rest of that region's
      data blocks and all of the later regions. */
  lemma BeyondCases(f: FileMap, m: int, n: int, o: Owner, ino: int)
    requires 0 <= n <= m <= MAX_BLOCKS && n <= Start(2) && Shaped(f, m)
    requires o.At? && o.ino == ino && 0 <= o.r < 4 && 0 <= o.j < 4 && 0 <= o.k < |f[o.r][o.j]|
    ensures
      var q := CutRegion(n);
      Beyond(o, ino, n) <==> InPart(o, ino, q, n - Start(q)) || exists r :: q < r < 4 && InRegion(o, ino, r)
  {
    assert |f[o.r][o.j]| == Need(o.r, o.j, m);
    UpValues(DataIn(1, n));
    UpValues(DataIn(1, m));
    if o.r > CutRegion(n) {
      assert Need(o.r, o.j, n) == 0;
      assert InRegion(o, ino, o.r);
    }
  }

  lemma DoomedOwned(d: seq<Block>, lo: int, head: int, w: World, rec: InodeRec, ino: int, n: int)
    requires InodeOk(d, lo, head, w, rec, ino) && 0 <= n <= rec.blocks && n <= Start(2)
    ensures
      var s := Doomed(d, w.files[ino], CutRegion(n), n);
      && Distinct(s)
      && (forall x :: x in s <==> x in w.owner && Beyond(w.owner[x], ino, n))
  {
    hide WorldOk, FileOk, TreesOk, Shaped, Distinct, Walk, RegionWalk, Drop, Beyond, InPart, InRegion, RegionSize;
    var f, q := w.files[ino], CutRegion(n);
    FactsOf(d, lo, head, w, rec, ino);
    PartOwned(w.owner, w.files, ino, q, n - Start(q));
    RegionWalkOwned(d, lo, head, w, ino, 1);
    RegionWalkOwned(d, lo, head, w, ino, 2);
    RegionWalkOwned(d, lo, head, w, ino, 3);
    PartsDisjoint();
    var a := Drop(f[q][0], n - Start(q));
    var b := if q < 1 then RegionWalk(d, f, 1) else [];
    assert Distinct([]) by {
      EmptyUnder(0, 0, 0, 0);
    }
    DistinctConcat(a, b);
    DistinctConcat(a + b, RegionWalk(d, f, 2));
    DistinctConcat(a + b + RegionWalk(d, f, 2), RegionWalk(d, f, 3));
    forall x | x in w.owner
      ensures Beyond(w.owner[x], ino, n) <==>
        InPart(w.owner[x], ino, q, n - Start(q)) || exists r :: q < r < 4 && InRegion(w.owner[x], ino, r)
    {
      BeyondAt(d, lo, head, w, rec, ino, n, x);
    }
  }

  lemma BeyondAt(d: seq<Block>, lo: int, head: int, w: World, rec: InodeRec, ino: int, n: int, x: int)
    requires InodeOk(d, lo, head, w, rec, ino) && 0 <= n <= rec.blocks && n <= Start(2) && x in w.owner
    ensures
      var q := CutRegion(n);
      Beyond(w.owner[x], ino, n) <==>
        InPart(w.owner[x], ino, q, n - Start(q)) || exists r :: q < r < 4 && InRegion(w.owner[x], ino, r)
  {
    var o := w.owner[x];
    if o.At? && o.ino == ino {
      assert PositionHolds(w.files, o, x);
      BeyondCases(w.files[ino], rec.blocks, n, o, ino);
    }
  }

  lemma PartsDisjoint()
    ensures forall o, ino, q, c, r :: InPart(o, ino, q, c) && InRegion(o, ino, r) ==> q == r
    ensures forall o, ino, q, r :: InRegion(o, ino, q) && InRegion(o, ino, r) ==> q == r
  {
  }

  lemma FactsOf(d: seq<Block>, lo: int, head: int, w: World, rec: InodeRec, ino: int)
    requires InodeOk(d, lo, head, w, rec, ino)
    ensures WorldOk(d, lo, head, w) && PositionsOk(w.owner, w.files) && 0 <= ino < |w.files|
    ensures TreesOk(d, w.files[ino]) && Shaped(w.files[ino], rec.blocks) && 0 <= rec.blocks <= MAX_BLOCKS
    ensures forall r :: 1 <= r < 4 ==> |w.files[ino][r][r]| <= 1
  {
    forall r | 1 <= r < 4 ensures |w.files[ino][r][r]| <= 1 {
      assert |w.files[ino][r][r]| == Need(r, r, rec.blocks);
      UpValues(DataIn(r, rec.blocks));
    }
  }

  lemma DataTotal(m: int)
    requires 0 <= m <= MAX_BLOCKS
    ensures DataIn(0, m) + DataIn(1, m) + DataIn(2, m) + DataIn(3, m) == m
  {
  }

  lemma DoomedLength(d: seq<Block>, lo: int, head: int, w: World, rec: InodeRec, ino: int, n: int)
    requires InodeOk(d, lo, head, w, rec, ino) && 0 <= n <= rec.blocks && n <= Start(2)
    ensures |Doomed(d, w.files[ino], CutRegion(n), n)| ==
      (rec.blocks - n) + IndexBlocks(rec.blocks) - IndexBlocks(n)
  {
    hide WorldOk, FileOk, TreesOk, Distinct, Walk, RegionWalk, InRegion;
    var f, m := w.files[ino], rec.blocks;
    FactsOf(d, lo, head, w, rec, ino);
    RegionWalkOwned(d, lo, head, w, ino, 1);
    RegionWalkOwned(d, lo, head, w, ino, 2);
    RegionWalkOwned(d, lo, head, w, ino, 3);
    assert forall r, j :: 0 <= j <= r < 4 ==> |f[r][j]| == Need(r, j, m);
    assert forall r :: 0 <= r < 4 ==> Need(r, 0, m) == DataIn(r, m);
    DataTotal(m);
    IndexBlocksClosed(n);
    if n > DIRECT {
      UpValues(DataIn(1, m));
    }
  }

  /** The blocks to be dropped, held but not yet freed. */
  lemma CutReady(d: seq<Block>, lo: int, head: int, w: World, rec: InodeRec, ino: int, n: int)
    requires InodeOk(d, lo, head, w, rec, ino) && 0 <= n <= rec.blocks && n <= Start(2)
    ensures
      var w1 := Detach(w, ino, Cut(w.files[ino], n));
      var s := Doomed(d, w.files[ino], CutRegion(n), n);
      && WorldOk(d, lo, head, w1) && AllHeld(w1, s) && Distinct(s)
      && NumFree(w1.owner) == NumFree(w.owner)
  {
    hide WorldOk, FileOk, TreesOk, Distinct, Doomed;
    var f1, s := Cut(w.files[ino], n), Doomed(d, w.files[ino], CutRegion(n), n);
    FactsOf(d, lo, head, w, rec, ino);
    CutShape(w.files[ino], n, rec.blocks);
    DetachOk(d, lo, head, w, ino, f1);
    DoomedOwned(d, lo, head, w, rec, ino, n);
    forall x | x in s ensures Dropped(w.owner[x], ino, f1) {
      BeyondDropped(f1, n, w.owner[x], ino);
    }
  }

  lemma BeyondDropped(f: FileMap, n: int, o: Owner, ino: int)
    requires Shaped(f, n) && o.At? && o.ino == ino && 0 <= o.k
    ensures Dropped(o, ino, f) <==> !(0 <= o.r < 4 && 0 <= o.j < 4) || Beyond(o, ino, n)
  {
  }

  /** The disk to compare with: as at the start, except that the single indirect
      block of a cut in its middle already lists only the blocks that stay. */
  ghost predicate CutBase(d: seq<Block>, f: FileMap, n: int, b: seq<Block>)
    requires 0 <= n
  {
    if n <= DIRECT then b == d
    else
      && |f[1][1]| == 1 && |b| == |d| && 0 <= f[1][1][0] < |d|
      && (forall x :: 0 <= x < |d| && x != f[1][1][0] ==> b[x] == d[x])
      && (forall s :: 0 <= s < K ==> b[f[1][1][0]][s] == Entry(Cut(f, n)[1][0], s))
  }

  lemma CutSizes(f: FileMap, m: int, n: int)
    requires 0 <= n < m <= MAX_BLOCKS && n <= Start(2) && Shaped(f, m)
    ensures forall r, j :: 0 <= r < 4 && 0 <= j < 4 ==> |Cut(f, n)[r][j]| == Need(r, j, n)
    ensures |Cut(f, n)[0][0]| == if n <= DIRECT then n else DIRECT
    ensures |Cut(f, n)[1][0]| == if n <= DIRECT then 0 else n - DIRECT
    ensures |Cut(f, n)[1][1]| == if n <= DIRECT then 0 else 1
    ensures forall r, j :: 2 <= r < 4 && 0 <= j < 4 ==> Cut(f, n)[r][j] == []
    ensures n > DIRECT ==> Cut(f, n)[1][1] == f[1][1] && |f[1][1]| == 1
  {
    hide Shaped;
    CutShape(f, n, m);
    ShapedSize(Cut(f, n), n);
    ShapedSize(f, m);
    UpValues(DataIn(1, n));
    UpValues(DataIn(1, m));
  }

  lemma ShapedSize(f: FileMap, n: int)
    requires Shaped(f, n)
    ensures forall r, j :: 0 <= r < 4 && 0 <= j < 4 ==> |f[r][j]| == Need(r, j, n)
  {
  }

  /** After the cut the trees hold the prefix. */
  lemma CutTrees(d: seq<Block>, lo: int, head: int, w: World, rec: InodeRec, ino: int, n: int,
                 b: seq<Block>, d': seq<Block>, w': World)
    requires InodeOk(d, lo, head, w, rec, ino) && 0 <= n < rec.blocks && n <= Start(2)
    requires CutBase(d, w.files[ino], n, b)
    requires Released(b, Detach(w, ino, Cut(w.files[ino], n)), d', w', Doomed(d, w.files[ino], CutRegion(n), n))
    ensures TreesOk(d', Cut(w.files[ino], n))
  {
    hide WorldOk, FileOk, TreesOk, Shaped, Cut, Doomed;
    var f, f1 := w.files[ino], Cut(w.files[ino], n);
    FactsOf(d, lo, head, w, rec, ino);
    CutSizes(f, rec.blocks, n);
    DoomedOwned(d, lo, head, w, rec, ino, n);
    if n > DIRECT {
      SingleStays(d, lo, head, w, ino, n);
    }
    LinksAll(d', f1);
  }

  lemma SingleStays(d: seq<Block>, lo: int, head: int, w: World, ino: int, n: int)
    requires WorldOk(d, lo, head, w) && 0 <= ino < |w.files| && |w.files[ino][1][1]| == 1 && DIRECT < n
    ensures
      var p := w.files[ino][1][1][0];
      && 0 < lo <= p < |d| && p in w.owner && w.owner[p] == At(ino, 1, 1, 0)
      && !Beyond(w.owner[p], ino, n)
      && p in Detach(w, ino, Cut(w.files[ino], n)).owner
      && !Detach(w, ino, Cut(w.files[ino], n)).owner[p].Free()
  {
    assert w.owner[w.files[ino][1][1][0]] == At(ino, 1, 1, 0);
    UpValues(DataIn(1, n));
  }

  lemma LinksAll(d: seq<Block>, f: FileMap)
    requires forall r, j :: 2 <= r < 4 && 0 <= j < 4 ==> f[r][j] == []
    requires |f[1][1]| <= 1 && |f[1][0]| <= K * |f[1][1]|
    requires f[1][1] != [] ==>
      0 <= f[1][1][0] < |d| && forall s :: 0 <= s < K ==> d[f[1][1][0]][s] == Entry(f[1][0], s)
    ensures TreesOk(d, f)
  {
    forall r, j | 0 <= j < r < 4 ensures Links(d, f[r][j + 1], f[r][j]) {
      if r >= 2 {
        assert f[r][j] == [] && f[r][j + 1] == [];
      }
    }
  }

  /** The pointers of an inode cut to `n` blocks. */
  ghost predicate CutPointers(rec: InodeRec, n: int, rec': InodeRec) {
    && SameAttributes(rec, rec') && rec'.double == 0 && rec'.triple == 0
    && |rec'.direct| == |rec.direct| == DIRECT
    && (forall k :: 0 <= k < DIRECT ==> rec'.direct[k] == if k < n then rec.direct[k] else 0)
    && rec'.single == if n <= DIRECT then 0 else rec.single
  }

  lemma CutPointersOk(f: FileMap, m: int, rec: InodeRec, n: int, rec': InodeRec)
    requires 0 <= n < m <= MAX_BLOCKS && n <= Start(2) && Shaped(f, m)
    requires PointersOk(rec, f) && CutPointers(rec, n, rec')
    ensures PointersOk(rec', Cut(f, n))
  {
    hide Shaped;
    CutSizes(f, m, n);
    forall k | 0 <= k < DIRECT ensures rec'.direct[k] == Entry(Cut(f, n)[0][0], k) {
      assert rec.direct[k] == Entry(f[0][0], k);
      CutEntry(f, n, k);
    }
  }

  lemma CutEntry(f: FileMap, n: int, k: int)
    requires 0 <= k
    ensures k < |Cut(f, n)[0][0]| ==> Cut(f, n)[0][0][k] == Entry(f[0][0], k)
  {
  }

  lemma TruncateDone(d: seq<Block>, lo: int, head: int, w: World, rec: InodeRec, ino: int, n: int,
                     b: seq<Block>, d': seq<Block>, w': World, rec': InodeRec)
    requires InodeOk(d, lo, head, w, rec, ino) && 0 <= n < rec.blocks && n <= Start(2)
    requires CutBase(d, w.files[ino], n, b)
    requires Released(b, Detach(w, ino, Cut(w.files[ino], n)), d', w', Doomed(d, w.files[ino], CutRegion(n), n))
    requires rec'.blocks == n && CutPointers(rec, n, rec')
    ensures Truncated(d, w, rec, d', w', rec', ino, n)
  {
    hide WorldOk, TreesOk, Shaped, Cut, Doomed, PointersOk, IndexBlocks, Beyond, NumFree;
    var f, f1, w1 := w.files[ino], Cut(w.files[ino], n), Detach(w, ino, Cut(w.files[ino], n));
    FactsOf(d, lo, head, w, rec, ino);
    CutTrees(d, lo, head, w, rec, ino, n, b, d', w');
    CutShape(f, n, rec.blocks);
    CutPointersOk(f, rec.blocks, rec, n, rec');
    DoomedOwned(d, lo, head, w, rec, ino, n);
    DoomedLength(d, lo, head, w, rec, ino, n);
    CutReady(d, lo, head, w, rec, ino, n);
    forall x | x in w.owner && !Beyond(w.owner[x], ino, n)
      ensures w1.owner[x] == w.owner[x]
    {
      BeyondOwner(d, lo, head, w, rec, ino, n, x);
    }
    if n > DIRECT {
      CutSizes(f, rec.blocks, n);
      SingleStays(d, lo, head, w, ino, n);
    }
  }

  lemma BeyondOwner(d: seq<Block>, lo: int, head: int, w: World, rec: InodeRec, ino: int, n: int, x: int)
    requires InodeOk(d, lo, head, w, rec, ino) && 0 <= n <= rec.blocks && x in w.owner
    ensures Dropped(w.owner[x], ino, Cut(w.files[ino], n)) <==> Beyond(w.owner[x], ino, n)
  {
    var o := w.owner[x];
    CutShape(w.files[ino], n, rec.blocks);
    if o.At? && o.ino == ino {
      assert PositionHolds(w.files, o, x);
      BeyondDropped(Cut(w.files[ino], n), n, o, ino);
    }
  }
}
