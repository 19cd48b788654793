/** Where a block of the data region is, told from the disk and the inode table alone. */
module Places {
  import opened Blocks
  import opened Ownership
  import opened BlockMap
  import opened Append

  /** A place for a block: the free-list block `n` links behind the head, a slot of a
      free-list block, in the hands of the client, or a position in the trees of an inode. */
  datatype Place =
    | Linked(n: nat)
    | Listed(block: int, slot: int)
    | InHand
    | In(ino: int, r: int, j: int, k: int)

  /** The block `n` links behind the head of the free list, or 0. */
  function Follow(d: seq<Block>, head: int, n: nat): int {
    if n == 0 then head
    else
      var p := Follow(d, head, n - 1);
      if 0 < p < |d| then d[p][0] else 0
  }

  /** The block that the pointers lead to from an inode record: position `k` on level `j` of
      region `r`, or 0. */
  function Reach(d: seq<Block>, rec: InodeRec, r: int, j: int, k: int): int
    requires 0 <= j <= r < 4 && 0 <= k
    decreases r - j
  {
    if r == 0 then (if k < |rec.direct| then rec.direct[k] else 0)
    else if j == r then (if k == 0 then Root(rec, r) else 0)
    else
      var p := Reach(d, rec, r, j + 1, k / K);
      if 0 < p < |d| then d[p][k % K] else 0
  }

  /** Block `x` is found at place `p`. */
  ghost predicate FoundAt(d: seq<Block>, head: int, inodes: seq<InodeRec>, held: seq<int>, p: Place, x: int) {
    match p
    case Linked(n) => Follow(d, head, n) == x
    case Listed(c, s) => (exists n :: Follow(d, head, n) == c) && 0 < c < |d| && 1 <= s < K && d[c][s] == x
    case InHand => x in held
    case In(ino, r, j, k) =>
      0 <= ino < |inodes| && 0 <= j <= r < 4 && 0 <= k && Reach(d, inodes[ino], r, j, k) == x
  }

  /** Block `x` is found at one place and at no other. */
  ghost predicate OnePlace(d: seq<Block>, head: int, inodes: seq<InodeRec>, held: seq<int>, x: int) {
    exists p :: FoundAt(d, head, inodes, held, p, x) && forall q :: FoundAt(d, head, inodes, held, q, x) ==> q == p
  }

  /** The blocks `held` by the client are the blocks that are neither free nor in an inode. */
  ghost predicate HeldIs(owner: map<int, Owner>, held: seq<int>) {
    Distinct(held) && forall x :: x in held <==> x in owner && owner[x] == Held
  }

  /** The inode records lead to the trees of the world. */
  ghost predicate AllRooted(d: seq<Block>, inodes: seq<InodeRec>, files: seq<FileMap>) {
    |files| == |inodes| && forall i :: 0 <= i < |inodes| ==> Rooted(inodes[i], files[i]) && TreesOk(d, files[i])
  }

  /** The place that the bookkeeping gives for a block. */
  ghost function PlaceOf(chain: seq<int>, o: Owner): Place
    requires o.Chain? ==> o.pos < |chain|
  {
    match o
    case Chain(pos) => Linked(|chain| - 1 - pos)
    case Slot(c, s) => Listed(c, s)
    case Held => InHand
    case At(ino, r, j, k) => In(ino, r, j, k)
  }

  /** Following the links from the head visits the chain, then 0. */
  lemma {:induction false} FollowChain(d: seq<Block>, head: int, chain: seq<int>, owner: map<int, Owner>, n: nat)
    requires FreeListOk(d, head, chain, owner)
    ensures Follow(d, head, n) == if n < |chain| then chain[|chain| - 1 - n] else 0
  {
    if n > 0 {
      FollowChain(d, head, chain, owner, n - 1);
      if n <= |chain| {
        assert owner[chain[|chain| - n]] == Chain(|chain| - n);
      }
    }
  }

  /** Following the pointers of an inode finds exactly the blocks of its trees. */
  lemma {:induction false} ReachTree(d: seq<Block>, owner: map<int, Owner>, files: seq<FileMap>, rec: InodeRec, ino: int,
                                     r: int, j: int, k: int)
    requires PositionsOk(owner, files) && 0 <= ino < |files| && (forall x :: x in owner ==> 0 < x < |d|)
    requires Rooted(rec, files[ino]) && TreesOk(d, files[ino]) && 0 <= j <= r < 4 && 0 <= k
    ensures Reach(d, rec, r, j, k) == Entry(files[ino][r][j], k)
    decreases r - j
  {
    hide PositionsOk, TreesOk;
    var f := files[ino];
    if j < r {
      ReachTree(d, owner, files, rec, ino, r, j + 1, k / K);
      LevelLinks(d, f, r, j, k);
      if k / K < |f[r][j + 1]| {
        InData(owner, files, ino, r, j + 1, k / K);
      }
    }
  }

  lemma InData(owner: map<int, Owner>, files: seq<FileMap>, ino: int, r: int, j: int, k: int)
    requires PositionsOk(owner, files) && 0 <= ino < |files| && 0 <= r < 4 && 0 <= j < 4 && 0 <= k < |files[ino][r][j]|
    ensures files[ino][r][j][k] in owner && owner[files[ino][r][j][k]] == At(ino, r, j, k)
  {
  }

  lemma LevelLinks(d: seq<Block>, f: FileMap, r: int, j: int, k: int)
    requires TreesOk(d, f) && 0 <= j < r < 4 && 0 <= k
    ensures if k / K < |f[r][j + 1]|
            then 0 <= f[r][j + 1][k / K] < |d| && d[f[r][j + 1][k / K]][k % K] == Entry(f[r][j], k)
            else Entry(f[r][j], k) == 0
  {
    assert Links(d, f[r][j + 1], f[r][j]);
    if k / K < |f[r][j + 1]| {
      ChildAt(d, f[r][j + 1], f[r][j], k);
    }
  }

  /** A block found somewhere is found where the bookkeeping says. */
  lemma FoundOwner(d: seq<Block>, lo: int, head: int, w: World, inodes: seq<InodeRec>, held: seq<int>, p: Place, x: int)
    requires WorldOk(d, lo, head, w) && AllRooted(d, inodes, w.files) && HeldIs(w.owner, held) && lo <= x < |d|
    requires FoundAt(d, head, inodes, held, p, x)
    ensures x in w.owner && (w.owner[x].Chain? ==> w.owner[x].pos < |w.chain|) && p == PlaceOf(w.chain, w.owner[x])
  {
    hide Rooted, TreesOk, Reach, Follow;
    match p
    case Linked(n) =>
      FollowChain(d, head, w.chain, w.owner, n);
    case Listed(c, s) =>
      var n :| Follow(d, head, n) == c;
      FollowChain(d, head, w.chain, w.owner, n);
    case InHand =>
    case In(ino, r, j, k) =>
      ReachTree(d, w.owner, w.files, inodes[ino], ino, r, j, k);
      InData(w.owner, w.files, ino, r, j, k);
  }

  lemma NoHigher(rec: InodeRec, f: FileMap, r: int, j: int, k: int)
    requires Rooted(rec, f) && 0 <= r < 4 && 0 <= j < 4 && 0 <= k < |f[r][j]|
    ensures j <= r
  {
  }

  /** And it is found there. */
  lemma OwnerFound(d: seq<Block>, lo: int, head: int, w: World, inodes: seq<InodeRec>, held: seq<int>, x: int)
    requires WorldOk(d, lo, head, w) && AllRooted(d, inodes, w.files) && HeldIs(w.owner, held) && lo <= x < |d|
    ensures x in w.owner && (w.owner[x].Chain? ==> w.owner[x].pos < |w.chain|)
    ensures FoundAt(d, head, inodes, held, PlaceOf(w.chain, w.owner[x]), x)
  {
    hide TreesOk, Reach, Follow;
    match w.owner[x]
    case Chain(pos) =>
      FollowChain(d, head, w.chain, w.owner, |w.chain| - 1 - pos);
    case Slot(c, s) =>
      FollowChain(d, head, w.chain, w.owner, |w.chain| - 1 - w.owner[c].pos);
    case Held =>
    case At(ino, r, j, k) =>
      assert PositionHolds(w.files, w.owner[x], x);
      NoHigher(inodes[ino], w.files[ino], r, j, k);
      ReachTree(d, w.owner, w.files, inodes[ino], ino, r, j, k);
  }

  /** Every block of the data region is found at exactly one place on the disk. */
  lemma OnePlaceEach(d: seq<Block>, lo: int, head: int, w: World, inodes: seq<InodeRec>, held: seq<int>, x: int)
    requires WorldOk(d, lo, head, w) && AllRooted(d, inodes, w.files) && HeldIs(w.owner, held) && lo <= x < |d|
    ensures OnePlace(d, head, inodes, held, x)
  {
    hide WorldOk, AllRooted, HeldIs, FoundAt, PlaceOf;
    OwnerFound(d, lo, head, w, inodes, held, x);
    var p := PlaceOf(w.chain, w.owner[x]);
    forall q | FoundAt(d, head, inodes, held, q, x) ensures q == p {
      FoundOwner(d, lo, head, w, inodes, held, q, x);
    }
  }
}
