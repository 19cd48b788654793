/** Whole runs: every block keeps exactly one owner, and a file that is made, filled and
    deleted leaves nothing behind. */
module Runs {
  import opened Blocks
  import opened Ownership
  import opened FreeList
  import opened BlockMap
  import opened Attaching
  import opened Cutting
  import opened Disk
  import opened Lookup
  import opened Append
  import opened Truncation
  import opened Removal
  import opened DoubleRemoval
  import opened AllocatorRuns
  import opened Places
  import opened Superblock
  import opened Inodes
  import opened Files
  import opened Directory
  import opened Writes
  import opened Truncates
  import opened Snapshots

  /** The index block that level `j` of region `r` has gained, if any. */
  ghost function Gained(f: FileMap, f': FileMap, r: int, j: int): set<nat>
    requires 0 <= r < 4 && 0 <= j < 4
  {
    if |f'[r][j]| > |f[r][j]| && f'[r][j][|f[r][j]|] >= 0 then {f'[r][j][|f[r][j]|] as nat} else {}
  }

  lemma GainedOwner(d: seq<Block>, lo: int, head: int, w: World, ino: int, b: int,
                    d': seq<Block>, head': int, w': World, r: int, j: int)
    requires WorldOk(d, lo, head, w) && WorldOk(d', lo, head', w') && 0 <= ino < |w.files|
    requires Evolves(d, w, d', w', ino, b) && 0 <= r < 4 && 1 <= j < 4
    ensures |w'.files| == |w.files|
    ensures
      var f, f' := w.files[ino], w'.files[ino];
      && (|f'[r][j]| > |f[r][j]| ==> |Gained(f, f', r, j)| == 1) && (|f'[r][j]| <= |f[r][j]| ==> |Gained(f, f', r, j)| == 0)
      && (forall x: nat :: x in Gained(f, f', r, j) ==>
            x in w'.owner && w'.owner[x] == At(ino, r, j, |f[r][j]|) && x in w.owner && w.owner[x].Free())
  {
    var f, f' := w.files[ino], w'.files[ino];
    if |f'[r][j]| > |f[r][j]| {
      var x := f'[r][j][|f[r][j]|];
      assert w'.owner[w'.files[ino][r][j][|f[r][j]|]] == At(ino, r, j, |f[r][j]|);
      assert x in w.owner && w.owner[x].At? ==> PositionHolds(w.files, w.owner[x], x);
    }
  }

  /** The sizes of the levels that an append grows add up to its growth. */
  lemma GainedSizes(f: FileMap, n: int, b: int, f': FileMap)
    requires 0 <= n < MAX_BLOCKS && Shaped(f, n) && Grown(f, n, b, f')
    ensures
      var r := Region(n);
      && (forall j :: 0 <= j < 4 ==> |f[r][j]| <= |f'[r][j]| <= |f[r][j]| + 1)
      && IndexSize(f', r) == IndexSize(f, r) + Growth(n)
  {
    hide Shaped, Need, Grown, Region;
    GrownShape(f, n, b, f');
    ShapedSize(f, n);
    ShapedSize(f', n + 1);
    forall r, j | 0 <= r < 4 && 0 <= j < 4
      ensures |f[r][j]| == Need(r, j, n) && |f'[r][j]| == Need(r, j, n + 1)
      ensures Need(r, j, n) <= Need(r, j, n + 1) <= Need(r, j, n) + 1
      ensures j > r || r != Region(n) ==> Need(r, j, n) == Need(r, j, n + 1)
    {
      NeedStep(n, r, j);
    }
    assert 0 <= Region(n) < 4;
  }

  lemma SameSize(s: set<nat>, t: set<nat>)
    requires t <= s && |t| == |s|
    ensures t == s
  {
    assert s == t + (s - t);
  }

  lemma Difference(s: set<nat>, t: set<nat>)
    requires t <= s
    ensures |s - t| == |s| - |t|
  {
    assert s == t + (s - t);
  }

  /** If as many blocks have left the free list as a region has gained index blocks, the
      blocks that left are these index blocks. */
  lemma TakesOnly(d: seq<Block>, lo: int, head: int, w: World, ino: int, b: int,
                  d': seq<Block>, head': int, w': World, r: int, x: nat)
    requires WorldOk(d, lo, head, w) && WorldOk(d', lo, head', w') && 0 <= ino < |w.files| == |w'.files| && 0 <= r < 4
    requires Evolves(d, w, d', w', ino, b)
    requires forall j :: 0 <= j < 4 ==> |w.files[ino][r][j]| <= |w'.files[ino][r][j]| <= |w.files[ino][r][j]| + 1
    requires NumFree(w.owner) - NumFree(w'.owner) == IndexSize(w'.files[ino], r) - IndexSize(w.files[ino], r)
    requires x in w.owner && w.owner[x].Free() && x in w'.owner && !w'.owner[x].Free()
    ensures w'.owner[x].At? && w'.owner[x].ino == ino && 1 <= w'.owner[x].j
  {
    hide WorldOk, Evolves, Gained, FreeSet;
    FreeShrinks(d, w, d', w', ino, b);
    var f, f' := w.files[ino], w'.files[ino];
    GainedParts(d, lo, head, w, ino, b, d', head', w', r);
    Difference(FreeSet(w.owner), FreeSet(w'.owner));
    ThreeParts(FreeSet(w.owner) - FreeSet(w'.owner), Gained(f, f', r, 1), Gained(f, f', r, 2), Gained(f, f', r, 3));
    InFree(w.owner, x);
    InFree(w'.owner, x);
  }

  /** An append takes exactly its new index blocks from the free list: every block that
      is no longer free is one of them. */
  lemma AppendTakes(d: seq<Block>, lo: int, head: int, w: World, rec: InodeRec, ino: int, b: int,
                    d': seq<Block>, head': int, w': World, rec': InodeRec, x: nat)
    requires InodeOk(d, lo, head, w, rec, ino) && WorldOk(d', lo, head', w')
    requires b in w.owner && w.owner[b] == Held && Appended(d, w, rec, d', w', rec', ino, b)
    requires x in w.owner && w.owner[x].Free() && x in w'.owner && !w'.owner[x].Free()
    ensures w'.owner[x].At? && w'.owner[x].ino == ino && 1 <= w'.owner[x].j
  {
    hide WorldOk, FileOk, Grown, Growth, NumFree, Evolves, Region;
    FactsOf(d, lo, head, w, rec, ino);
    EvolvesSize(d, w, d', w', ino, b);
    GainedSizes(w.files[ino], rec.blocks, b, w'.files[ino]);
    TakesOnly(d, lo, head, w, ino, b, d', head', w', Region(rec.blocks), x);
  }

  /** Nor does a failed append lose a block: those it took are index blocks of the inode. */
  lemma FailedTakes(d: seq<Block>, lo: int, head: int, w: World, rec: InodeRec, ino: int, b: int,
                    d': seq<Block>, head': int, w': World, rec': InodeRec, x: nat)
    requires InodeOk(d, lo, head, w, rec, ino) && WorldOk(d', lo, head', w') && 0 <= rec.blocks
    requires AppendFailed(d, w, rec, d', w', rec', ino, b)
    requires x in w.owner && w.owner[x].Free() && x in w'.owner && !w'.owner[x].Free()
    ensures w'.owner[x].At? && w'.owner[x].ino == ino && 1 <= w'.owner[x].j
  {
    hide WorldOk, FileOk, Growth, NumFree, Evolves, Region, Rooted, TreesOk;
    EvolvesSize(d, w, d', w', ino, b);
    TakesOnly(d, lo, head, w, ino, b, d', head', w', Region(rec.blocks), x);
  }

  lemma InFree(owner: map<int, Owner>, x: nat)
    ensures x in FreeSet(owner) <==> x in owner && owner[x].Free()
  {
  }

  lemma ThreeParts(s: set<nat>, a: set<nat>, b: set<nat>, c: set<nat>)
    requires a <= s && b <= s && c <= s && a !! b && a !! c && b !! c && |a| + |b| + |c| == |s|
    ensures s == a + b + c
  {
    assert |a + b| == |a| + |b| && |a + b + c| == |a| + |b| + |c|;
    SameSize(s, a + b + c);
  }

  /** The gained blocks of one region: different blocks, free before and in the tree now. */
  lemma GainedParts(d: seq<Block>, lo: int, head: int, w: World, ino: int, b: int,
                    d': seq<Block>, head': int, w': World, r: int)
    requires WorldOk(d, lo, head, w) && WorldOk(d', lo, head', w') && 0 <= ino < |w.files| == |w'.files|
    requires Evolves(d, w, d', w', ino, b) && 0 <= r < 4
    requires forall j :: 0 <= j < 4 ==> |w.files[ino][r][j]| <= |w'.files[ino][r][j]| <= |w.files[ino][r][j]| + 1
    ensures
      var f, f', s := w.files[ino], w'.files[ino], FreeSet(w.owner) - FreeSet(w'.owner);
      var a, b, c := Gained(f, f', r, 1), Gained(f, f', r, 2), Gained(f, f', r, 3);
      && a <= s && b <= s && c <= s && a !! b && a !! c && b !! c
      && (forall x: nat :: x in a + b + c ==> x in w'.owner && w'.owner[x].At? && w'.owner[x].ino == ino && 1 <= w'.owner[x].j)
      && (forall j :: 1 <= j < 4 ==> |Gained(f, f', r, j)| == |f'[r][j]| - |f[r][j]|)
  {
    hide WorldOk, Evolves, Gained;
    forall j | 1 <= j < 4
      ensures |Gained(w.files[ino], w'.files[ino], r, j)| == |w'.files[ino][r][j]| - |w.files[ino][r][j]|
      ensures forall x: nat :: x in Gained(w.files[ino], w'.files[ino], r, j) ==>
        && x in w'.owner && w'.owner[x] == At(ino, r, j, |w.files[ino][r][j]|)
        && x in w.owner && w.owner[x].Free()
    {
      GainedOwner(d, lo, head, w, ino, b, d', head', w', r, j);
    }
  }

  lemma FreeShrinks(d: seq<Block>, w: World, d': seq<Block>, w': World, ino: int, b: int)
    requires 0 <= ino < |w.files| && Evolves(d, w, d', w', ino, b)
    ensures FreeSet(w'.owner) <= FreeSet(w.owner) && w'.owner.Keys == w.owner.Keys
  {
  }

  /** The state between the steps of a run. */
  ghost predicate RunOk(disk: Disk, held: seq<int>)
    reads disk, disk.store
  {
    && TableOk(disk) && FirstInoOk(disk.inodes, disk.firstIno)
    && FsOk(disk.D(), disk.inodeBlocks + 1, disk.freelistHead, disk.w, disk.inodes)
    && HeldIs(disk.w.owner, held)
  }

  ghost function Now(disk: Disk, held: seq<int>): Snapshot
    reads disk, disk.store
  {
    Shot(disk.D(), disk.w, disk.inodes, held)
  }

  /** What holds wherever a run stops, also after a failed append: the inode records lead to
      all index blocks, and every block is accounted for. */
  ghost predicate RunSafe(disk: Disk, held: seq<int>)
    reads disk, disk.store
  {
    && TableOk(disk) && FirstInoOk(disk.inodes, disk.firstIno) && disk.Sound()
    && AllRooted(disk.D(), disk.inodes, disk.w.files) && HeldIs(disk.w.owner, held)
  }

  lemma RunOkSafe(disk: Disk, held: seq<int>)
    requires RunOk(disk, held)
    ensures RunSafe(disk, held)
  {
    hide FileOk, WorldOk, Rooted, TreesOk;
    forall i | 0 <= i < |disk.inodes| ensures Rooted(disk.inodes[i], disk.w.files[i]) && TreesOk(disk.D(), disk.w.files[i]) {
      FileRooted(disk.D(), disk.inodes[i], disk.w.files[i]);
    }
  }

  /** Nothing of any inode has changed. */
  ghost predicate AllKept(d: seq<Block>, w: World, d': seq<Block>, w': World) {
    && |d'| == |d| && w'.files == w.files
    && forall x :: x in w.owner && w.owner[x].At? ==> 0 <= x < |d| && d'[x] == d[x]
  }

  lemma FsKept(d: seq<Block>, lo: int, head: int, w: World, inodes: seq<InodeRec>, d': seq<Block>, head': int, w': World)
    requires FsOk(d, lo, head, w, inodes) && WorldOk(d', lo, head', w') && AllKept(d, w, d', w')
    ensures FsOk(d', lo, head', w', inodes)
  {
    forall i | 0 <= i < |inodes| ensures FileOk(d', inodes[i], w'.files[i]) {
      TreesFrame(d, d', w, i);
    }
  }

  lemma HeldMore(owner: map<int, Owner>, held: seq<int>, x: int)
    requires HeldIs(owner, held) && x in owner && owner[x].Free()
    ensures HeldIs(owner[x := Held], held + [x])
  {
  }

  lemma HeldLess(owner: map<int, Owner>, held: seq<int>, owner': map<int, Owner>)
    requires HeldIs(owner, held) && held != []
    requires forall x :: x in owner' && owner'[x] == Held <==> x in owner && owner[x] == Held && x != held[0]
    ensures HeldIs(owner', held[1..])
  {
    var t := held[1..];
    forall x ensures x in t <==> x in owner' && owner'[x] == Held {
      if x in held && x != held[0] {
        var i :| 0 <= i < |held| && held[i] == x;
        assert t[i - 1] == x;
      }
    }
    forall i, j | 0 <= i < j < |t| ensures t[i] != t[j] {
      assert t[i] == held[i + 1] && t[j] == held[j + 1];
    }
  }

  /** The client takes a block. */
  method Take(disk: Disk, held: seq<int>) returns (ok: bool, held': seq<int>)
    requires RunOk(disk, held)
    modifies disk`freelistHead, disk`w, disk.store
    ensures RunOk(disk, held')
    ensures ok <==> old(NumFree(disk.w.owner)) > 0
    ensures !ok ==> held' == held && Now(disk, held) == old(Now(disk, held))
    ensures ok ==> Follows(old(Now(disk, held)), TakeBlock, Now(disk, held'))
  {
    hide FreeListOk, PositionsOk, FileOk, HeldIs, Allocate, Follows, Shot, NumFree;
    HeadOf(disk.D(), disk.inodeBlocks + 1, disk.freelistHead, disk.w);
    ghost var d, lo, head, w := disk.D(), disk.inodeBlocks + 1, disk.freelistHead, disk.w;
    var x := disk.AllocateDataBlock();
    if x == -1 {
      return false, held;
    }
    TakeKept(d, lo, head, w, disk.D(), disk.w, x, held);
    FsKept(d, lo, head, w, disk.inodes, disk.D(), disk.freelistHead, disk.w);
    HeldMore(w.owner, held, x);
    TakeFollows(d, lo, head, w, disk.inodes, held, disk.D(), disk.freelistHead, disk.w, x);
    return true, held + [x];
  }

  lemma TakeKept(d: seq<Block>, lo: int, head: int, w: World, d': seq<Block>, w': World, x: int, held: seq<int>)
    requires WorldOk(d, lo, head, w) && HeldIs(w.owner, held)
    requires x in w.owner && w.owner[x].Free() && w'.files == w.files && SameOutsideFree(d, d', w.owner)
    ensures AllKept(d, w, d', w') && 0 < x < |d| && x !in held
  {
  }

  /** The client gives a block back. */
  method Give(disk: Disk, held: seq<int>) returns (held': seq<int>)
    requires RunOk(disk, held) && held != [] && disk.freelistHead != 0
    modifies disk`freelistHead, disk`w, disk.store
    ensures RunOk(disk, held') && Follows(old(Now(disk, held)), GiveBlock, Now(disk, held'))
  {
    hide FreeListOk, PositionsOk, FileOk, HeldIs, Follows, Shot;
    ghost var d, lo, head, w := disk.D(), disk.inodeBlocks + 1, disk.freelistHead, disk.w;
    var x := held[0];
    HeldFirst(w.owner, held);
    var _ := disk.FreeHeld(x);
    GiveKept(d, lo, head, w, disk.D(), disk.w, x);
    FsKept(d, lo, head, w, disk.inodes, disk.D(), disk.freelistHead, disk.w);
    HeldLess(w.owner, held, disk.w.owner);
    GiveFollows(d, lo, head, w, disk.inodes, held, disk.D(), disk.freelistHead, disk.w);
    return held[1..];
  }

  lemma HeldFirst(owner: map<int, Owner>, held: seq<int>)
    requires HeldIs(owner, held) && held != []
    ensures held[0] in owner && owner[held[0]] == Held
  {
  }

  lemma GiveKept(d: seq<Block>, lo: int, head: int, w: World, d': seq<Block>, w': World, x: int)
    requires WorldOk(d, lo, head, w) && x in w.owner && w.owner[x] == Held
    requires x in w'.owner && w'.owner[x].Free() && w'.owner == w.owner[x := w'.owner[x]]
    requires w'.files == w.files && SameOutsideFree(d, d', w'.owner)
    ensures AllKept(d, w, d', w')
  {
  }

  /** After an append the client holds one block less, and no block is lost. */
  lemma AppendHeld(d: seq<Block>, lo: int, head: int, w: World, rec: InodeRec, ino: int, held: seq<int>,
                   d': seq<Block>, head': int, w': World, rec': InodeRec)
    requires InodeOk(d, lo, head, w, rec, ino) && WorldOk(d', lo, head', w') && HeldIs(w.owner, held) && held != []
    requires Appended(d, w, rec, d', w', rec', ino, held[0])
    ensures |w'.files| == |w.files| && HeldIs(w'.owner, held[1..])
  {
    hide WorldOk, FileOk, Grown, Growth, NumFree, HeldIs;
    HeldFirst(w.owner, held);
    AppendRefines(d, w, rec, d', w', rec', ino, held[0]);
    DataOwner(d', lo, head', w', rec', ino, rec.blocks);
    OwnersInside(d, lo, head, w);
    forall x ensures x in w'.owner && w'.owner[x] == Held <==> x in w.owner && w.owner[x] == Held && x != held[0] {
      if x in w.owner && w.owner[x].Free() && !w'.owner[x].Free() {
        AppendTakes(d, lo, head, w, rec, ino, held[0], d', head', w', rec', x);
      }
    }
    HeldLess(w.owner, held, w'.owner);
  }

  /** The client's first block is appended to an inode. */
  method AttachFirst(disk: Disk, held: seq<int>, inum: int) returns (ok: bool, held': seq<int>)
    requires RunOk(disk, held) && held != [] && 0 <= inum < |disk.inodes|
    modifies disk`freelistHead, disk`w, disk`inodes, disk.store
    ensures ok <==>
      var n := old(disk.inodes)[inum].blocks;
      n < MAX_BLOCKS && Growth(n) <= old(NumFree(disk.w.owner))
    ensures RunSafe(disk, held')
    ensures ok ==> RunOk(disk, held') && Follows(old(Now(disk, held)), Attach(inum), Now(disk, held'))
    ensures !ok ==>
      held' == held && Now(disk, held) == old(Now(disk, held)).(free := NumFree(disk.w.owner), blocks := disk.D())
    ensures !ok ==> BytesKept(old(Now(disk, held)), Now(disk, held))
    ensures OthersKept(old(disk.D()), old(disk.w), disk.D(), disk.w, inum)
  {
    hide WorldOk, FileOk, HeldIs, FsOk, Appended, AppendFailed, OthersKept, Growth, NumFree, AllRooted, Kept, Extended,
         Follows, Shot, BytesKept;
    ghost var d, lo, head, w, inodes := disk.D(), disk.inodeBlocks + 1, disk.freelistHead, disk.w, disk.inodes;
    var node := GetInode(disk, inum);
    ghost var rec := node.Rec();
    FsInode(d, lo, head, w, inodes, inum);
    HeldFirst(w.owner, held);
    BlocksNatural(d, rec, w.files[inum]);
    NoChange(d, lo, head, w, inum);
    ok := AddDatablockToInode(disk, node, inum, held[0]);
    held' := if ok then held[1..] else held;
    AppendOthers(d, lo, head, w, rec, disk.D(), disk.w, node.Rec(), inum, held[0], ok, d, w);
    FirstInoKept(inodes, inum, node.Rec(), disk.firstIno);
    if ok {
      AppendHeld(d, lo, head, w, rec, inum, held, disk.D(), disk.freelistHead, disk.w, node.Rec());
      UpdateOk(d, lo, head, w, inodes, disk.D(), disk.freelistHead, disk.w, node.Rec(), inum);
      ExtendedBy(d, w, inodes, disk.D(), disk.w, node.Rec(), inum, held[0]);
      AttachFollows(d, lo, head, w, inodes, held, disk.D(), disk.freelistHead, disk.w, inodes[inum := node.Rec()], inum);
    } else {
      FailedHeld(d, lo, head, w, rec, inum, held, disk.D(), disk.freelistHead, disk.w, node.Rec());
      FailedRooted(d, lo, head, w, inodes, inum, held[0], disk.D(), disk.w, node.Rec());
      StuckShot(d, w, inodes, held, disk.D(), disk.w, inodes[inum := node.Rec()], inum);
      StuckData(d, lo, head, w, inodes, held, disk.D(), disk.w, node.Rec(), inum);
    }
    var _ := WriteInode(disk, inum, node);
    if ok {
      RunOkSafe(disk, held');
    }
  }

  lemma ExtendedBy(d: seq<Block>, w: World, inodes: seq<InodeRec>, d': seq<Block>, w': World, rec': InodeRec, ino: int, b: int)
    requires 0 <= ino < |inodes| == |w.files| && FileOk(d, inodes[ino], w.files[ino])
    requires Appended(d, w, inodes[ino], d', w', rec', ino, b)
    ensures Extended(inodes, w, inodes[ino := rec'], w', ino, b)
  {
    hide Evolves, FileOk, Grown, Growth, NumFree;
    BlocksNatural(d, inodes[ino], w.files[ino]);
    AppendRefines(d, w, inodes[ino], d', w', rec', ino, b);
    BlocksNatural(d', rec', w'.files[ino]);
  }

  /** A failed append leaves the client what it held, and no block with nobody. */
  lemma FailedHeld(d: seq<Block>, lo: int, head: int, w: World, rec: InodeRec, ino: int, held: seq<int>,
                   d': seq<Block>, head': int, w': World, rec': InodeRec)
    requires InodeOk(d, lo, head, w, rec, ino) && WorldOk(d', lo, head', w') && HeldIs(w.owner, held) && held != []
    requires 0 <= rec.blocks && AppendFailed(d, w, rec, d', w', rec', ino, held[0])
    ensures HeldIs(w'.owner, held)
  {
    hide WorldOk, FileOk, Growth, NumFree, Rooted, TreesOk;
    HeldFirst(w.owner, held);
    OwnersInside(d, lo, head, w);
    forall x ensures x in w'.owner && w'.owner[x] == Held <==> x in w.owner && w.owner[x] == Held {
      if x in w.owner && w.owner[x].Free() && !w'.owner[x].Free() {
        FailedTakes(d, lo, head, w, rec, ino, held[0], d', head', w', rec', x);
      }
    }
  }

  /** With the record written back, the inodes lead to all index blocks also after a failed
      append, and the block list of the inode is what it was. */
  lemma FailedRooted(d: seq<Block>, lo: int, head: int, w: World, inodes: seq<InodeRec>, ino: int, b: int,
                     d': seq<Block>, w': World, rec': InodeRec)
    requires FsOk(d, lo, head, w, inodes) && 0 <= ino < |inodes| && 0 <= inodes[ino].blocks <= MAX_BLOCKS
    requires AppendFailed(d, w, inodes[ino], d', w', rec', ino, b)
    ensures AllRooted(d', inodes[ino := rec'], w'.files) && Kept(inodes, w, inodes[ino := rec'], w', ino)
  {
    hide FileOk, Growth, NumFree, Rooted, TreesOk, DataAt;
    EvolvesSize(d, w, d', w', ino, b);
    forall i | 0 <= i < |inodes| && i != ino ensures Rooted(inodes[i], w'.files[i]) && TreesOk(d', w'.files[i]) {
      OthersFrame(d, w, d', w', ino, b, i, inodes[i]);
      FileRooted(d', inodes[i], w'.files[i]);
    }
    forall k | 0 <= k < inodes[ino].blocks ensures DataAt(w'.files[ino], k) == DataAt(w.files[ino], k) {
      SameData(w.files[ino], w'.files[ino], k);
    }
  }

  lemma BlocksNatural(d: seq<Block>, rec: InodeRec, f: FileMap)
    requires FileOk(d, rec, f)
    ensures 0 <= rec.blocks <= MAX_BLOCKS
  {
  }

  /** The blocks of an inode from `n` on are removed. */
  method CutTo(disk: Disk, held: seq<int>, inum: int, n: int)
    requires RunOk(disk, held) && 0 <= inum < |disk.inodes| && 0 <= n < disk.inodes[inum].blocks
    requires disk.freelistHead != 0 && ExactCut(disk.inodes[inum].blocks, n)
    modifies disk`freelistHead, disk`w, disk`inodes, disk.store
    ensures RunOk(disk, held) && Follows(old(Now(disk, held)), CutAt(inum, n), Now(disk, held))
  {
    hide WorldOk, FileOk, HeldIs, FsOk, Truncated, CutInDouble, OthersKept, NumFree, Follows, Shot;
    ghost var d, lo, head, w, inodes := disk.D(), disk.inodeBlocks + 1, disk.freelistHead, disk.w, disk.inodes;
    var node := GetInode(disk, inum);
    ghost var rec := node.Rec();
    FsInode(d, lo, head, w, inodes, inum);
    BlocksNatural(d, rec, w.files[inum]);
    var _ := RemoveDatablocksFromInode(disk, node, inum, n);
    Exactly(d, lo, head, w, rec, disk.D(), disk.w, node.Rec(), inum, n);
    TruncatedOthers(d, lo, head, w, rec, disk.D(), disk.w, node.Rec(), inum, n);
    TruncateRefines(d, lo, head, w, rec, disk.D(), disk.w, node.Rec(), inum, n);
    CutHeld(d, w, rec, disk.D(), disk.w, node.Rec(), inum, n, held);
    UpdateOk(d, lo, head, w, inodes, disk.D(), disk.freelistHead, disk.w, node.Rec(), inum);
    FirstInoKept(inodes, inum, node.Rec(), disk.firstIno);
    CutFollows(d, lo, head, w, inodes, held, disk.D(), disk.freelistHead, disk.w, inodes[inum := node.Rec()], inum, n);
    var _ := WriteInode(disk, inum, node);
  }

  lemma CutHeld(d: seq<Block>, w: World, rec: InodeRec, d': seq<Block>, w': World, rec': InodeRec, ino: int, n: int, held: seq<int>)
    requires 0 <= ino < |w.files| && 0 <= n <= rec.blocks <= MAX_BLOCKS && HeldIs(w.owner, held)
    requires Truncated(d, w, rec, d', w', rec', ino, n)
    ensures |w'.files| == |w.files| && HeldIs(w'.owner, held) && SameAttributes(rec, rec')
    ensures FileOk(d', rec', w'.files[ino])
  {
    hide FileOk, Cut, NumFree, Stable;
  }

  /** An inode is deleted with all its blocks. */
  method Delete(disk: Disk, held: seq<int>, inum: int)
    requires RunOk(disk, held) && 3 <= inum < |disk.inodes|
    requires disk.inodes[inum].blocks > 0 ==> disk.freelistHead != 0
    modifies disk, disk.store
    ensures RunOk(disk, held) && Follows(old(Now(disk, held)), DeleteInode(inum), Now(disk, held))
  {
    hide WorldOk, FileOk, HeldIs, FsOk, Reclaimed, NumFree, IndexBlocks, Follows, Shot;
    ghost var d, lo, head, w, inodes := disk.D(), disk.inodeBlocks + 1, disk.freelistHead, disk.w, disk.inodes;
    FsInode(d, lo, head, w, inodes, inum);
    var _ := FreeInode(disk, inum);
    DeleteHeld(d, w, inodes[inum], disk.D(), disk.w, inum, held);
    DeleteFollows(d, lo, head, w, inodes, held, disk.D(), disk.freelistHead, disk.w, inum);
  }

  lemma DeleteHeld(d: seq<Block>, w: World, rec: InodeRec, d': seq<Block>, w': World, ino: int, held: seq<int>)
    requires 0 <= ino < |w.files| && HeldIs(w.owner, held) && Reclaimed(d, w, rec, d', w', ino)
    ensures HeldIs(w'.owner, held)
    ensures NumFree(w'.owner) == NumFree(w.owner) + rec.blocks + IndexBlocks(rec.blocks)
  {
    hide Cut, NumFree, IndexBlocks;
  }

  /** An inode is created: its number is the smallest free one. */
  method Create(disk: Disk, held: seq<int>) returns (inum: int)
    requires RunOk(disk, held)
    modifies disk`inodes, disk`firstIno
    ensures RunOk(disk, held)
    ensures inum == -1 <==> forall i :: 3 <= i < |old(disk.inodes)| ==> old(disk.inodes)[i].inUse
    ensures inum == -1 ==> disk.inodes == old(disk.inodes)
    ensures inum != -1 ==>
      && 3 <= inum < |disk.inodes| && !old(disk.inodes)[inum].inUse && disk.inodes[inum].inUse
      && Follows(old(Now(disk, held)), CreateInode, Now(disk, held))
  {
    hide WorldOk, FileOk, HeldIs, FsOk, Follows, Shot;
    ghost var d, lo, head, w, inodes := disk.D(), disk.inodeBlocks + 1, disk.freelistHead, disk.w, disk.inodes;
    inum := AllocateInode(disk);
    if inum != -1 {
      CreateKept(d, lo, head, w, inodes, inum);
      FilesSize(d, lo, head, w, inodes);
      CreateFollows(d, w, inodes, held, disk.inodes, inum);
    }
  }

  lemma FilesSize(d: seq<Block>, lo: int, head: int, w: World, inodes: seq<InodeRec>)
    requires FsOk(d, lo, head, w, inodes)
    ensures |w.files| == |inodes|
  {
  }

  /** What the program needs for a step: the client gives back and attaches only what it
      holds, and no block is freed into an empty list. */
  predicate Allowed(disk: Disk, held: seq<int>, s: Step)
    reads disk
  {
    match s
    case TakeBlock => true
    case GiveBlock => held != [] && disk.freelistHead != 0
    case Attach(inum) => held != [] && 0 <= inum < |disk.inodes|
    case CutAt(inum, n) =>
      && 0 <= inum < |disk.inodes| && 0 <= n < disk.inodes[inum].blocks
      && disk.freelistHead != 0 && ExactCut(disk.inodes[inum].blocks, n)
    case CreateInode => true
    case DeleteInode(inum) =>
      3 <= inum < |disk.inodes| && (disk.inodes[inum].blocks > 0 ==> disk.freelistHead != 0)
  }

  method DoStep(disk: Disk, held: seq<int>, s: Step) returns (ok: bool, held': seq<int>)
    requires RunOk(disk, held) && Allowed(disk, held, s)
    modifies disk, disk.store
    ensures RunSafe(disk, held') && (ok || !s.Attach? ==> RunOk(disk, held'))
    ensures ok <==> Possible(old(Now(disk, held)), s)
    ensures ok ==> Follows(old(Now(disk, held)), s, Now(disk, held'))
    ensures !ok ==>
      && held' == held && BytesKept(old(Now(disk, held)), Now(disk, held))
      && Now(disk, held) == old(Now(disk, held)).(free := NumFree(disk.w.owner), blocks := disk.D())
    ensures !ok && !s.Attach? ==> Now(disk, held) == old(Now(disk, held))
  {
    hide WorldOk, FirstInoOk, HeldIs, ExactCut, Growth, NumFree, FileOk, AllRooted, Follows, Shot, Visible, Mapping;
    ghost var lo := disk.inodeBlocks + 1;
    if s.Attach? {
      TableBlocks(disk, held, s.inum);
      ListAt(disk.D(), lo, disk.freelistHead, disk.w, disk.inodes, held, s.inum);
    }
    ShotFree(disk.D(), disk.w, disk.inodes, held);
    ok, held' := true, held;
    match s {
      case TakeBlock => ok, held' := Take(disk, held);
      case GiveBlock => held' := Give(disk, held);
      case Attach(inum) => ok, held' := AttachFirst(disk, held, inum);
      case CutAt(inum, n) => CutTo(disk, held, inum, n);
      case CreateInode =>
        var inum := Create(disk, held);
        ok := inum != -1;
      case DeleteInode(inum) => Delete(disk, held, inum);
    }
    if ok || !s.Attach? {
      RunOkSafe(disk, held');
    }
    ShotFree(disk.D(), disk.w, disk.inodes, held');
  }

  lemma TableBlocks(disk: Disk, held: seq<int>, inum: int)
    requires RunOk(disk, held) && 0 <= inum < |disk.inodes|
    ensures 0 <= disk.inodes[inum].blocks <= MAX_BLOCKS
  {
    assert FileOk(disk.D(), disk.inodes[inum], disk.w.files[inum]);
  }

  /** The snapshots lead from the state before a run through the steps done. */
  ghost predicate IsRun(run: seq<Snapshot>, steps: seq<Step>, done: nat) {
    && done <= |steps| && |run| == done + 1
    && forall i :: 0 <= i < done ==> Possible(run[i], steps[i]) && Follows(run[i], steps[i], run[i + 1])
  }

  /** Runs the steps up to the first that is not allowed or not possible.  Each step done does
      what it should, from the state that the step before left.  Wherever the run stops, every
      block of the data region is at exactly one place; unless an append has failed, the file
      system is in order and the run can go on. */
  method Run(disk: Disk, steps: seq<Step>, initial: seq<int>) returns (done: nat, held: seq<int>, ghost run: seq<Snapshot>)
    requires RunOk(disk, initial)
    modifies disk, disk.store
    ensures IsRun(run, steps, done) && run[0] == old(Now(disk, initial))
    ensures Now(disk, held) == run[done].(free := NumFree(disk.w.owner), blocks := disk.D())
    ensures BytesKept(run[done], Now(disk, held))
    ensures RunSafe(disk, held)
    ensures
      || (RunOk(disk, held) && Now(disk, held) == run[done])
      || (done < |steps| && steps[done].Attach? && !Possible(run[done], steps[done]))
    ensures done < |steps| ==>
      !Possible(run[done], steps[done]) || (RunOk(disk, held) && !Allowed(disk, held, steps[done]))
    ensures forall x :: disk.inodeBlocks < x < |disk.D()| ==>
      OnePlace(disk.D(), disk.freelistHead, disk.inodes, held, x)
  {
    hide RunOk, OnePlace, WorldOk, Allowed, AllRooted, FirstInoOk, TableOk, HeldIs, Follows, Possible, Shot, Visible;
    done, held := 0, initial;
    run := [Now(disk, held)];
    RunOkSafe(disk, held);
    ShotFree(disk.D(), disk.w, disk.inodes, held);
    while done < |steps| && Allowed(disk, held, steps[done])
      invariant 0 <= done <= |steps| && RunOk(disk, held) && RunSafe(disk, held)
      invariant IsRun(run, steps, done) && run[0] == old(Now(disk, initial)) && run[done] == Now(disk, held)
      decreases |steps| - done
    {
      var ok;
      ok, held := DoStep(disk, held, steps[done]);
      if !ok {
        break;
      }
      run := run + [Now(disk, held)];
      done := done + 1;
    }
    ShotFree(disk.D(), disk.w, disk.inodes, held);
    forall x | disk.inodeBlocks < x < |disk.D()| ensures OnePlace(disk.D(), disk.freelistHead, disk.inodes, held, x) {
      OnePlaceEach(disk.D(), disk.inodeBlocks + 1, disk.freelistHead, disk.w, disk.inodes, held, x);
    }
  }

  /** How many blocks more the client holds after the steps. */
  function Balance(steps: seq<Step>): int {
    if steps == [] then 0 else
      Balance(steps[..|steps| - 1]) +
      match steps[|steps| - 1]
      case TakeBlock => 1
      case GiveBlock => -1
      case Attach(_) => -1
      case _ => 0
  }

  lemma {:induction false} HeldCount(run: seq<Snapshot>, steps: seq<Step>, done: nat, n: nat)
    requires IsRun(run, steps, done) && n <= done
    ensures |run[n].held| == |run[0].held| + Balance(steps[..n])
  {
    hide BytesKept, IndexBlocks, Growth;
    if n > 0 {
      HeldCount(run, steps, done, n - 1);
      assert steps[..n][..n - 1] == steps[..n - 1];
      assert Follows(run[n - 1], steps[n - 1], run[n]);
    }
  }

  /** A run on a device that has just been formatted. */
  method FormatAndRun(disk: Disk, steps: seq<Step>) returns (ok: bool, done: nat, held: seq<int>, ghost run: seq<Snapshot>)
    requires disk.inodeBlocks < disk.store.Length && disk.perBlock > 0 && disk.inodeBlocks * disk.perBlock >= FIRST_INO
    modifies disk, disk.store
    ensures ok <==> (disk.store.Length - disk.inodeBlocks - 1) % K != 0
    ensures ok ==>
      && IsRun(run, steps, done) && RunSafe(disk, held)
      && run[0].held == [] && run[0].free == disk.store.Length - disk.inodeBlocks - 1
      && |run[0].lists| == |run[0].used| == disk.inodeBlocks * disk.perBlock
      && (forall i :: 0 <= i < |run[0].lists| ==> run[0].lists[i] == [] && !run[0].used[i])
      && Now(disk, held) == run[done].(free := NumFree(disk.w.owner), blocks := disk.D())
      && BytesKept(run[done], Now(disk, held))
      && (|| (RunOk(disk, held) && Now(disk, held) == run[done])
          || (done < |steps| && steps[done].Attach? && !Possible(run[done], steps[done])))
      && (done < |steps| ==>
            !Possible(run[done], steps[done]) || (RunOk(disk, held) && !Allowed(disk, held, steps[done])))
      && (forall x :: disk.inodeBlocks < x < |disk.D()| ==>
            OnePlace(disk.D(), disk.freelistHead, disk.inodes, held, x))
  {
    hide OnePlace, WorldOk, NumFree, FileOk, RunSafe, Follows, Possible, Visible, IsRun, Allowed, Mapping;
    done, held, run := 0, [], [];
    ok := MakeFs(disk);
    if ok {
      done, held, run := Run(disk, steps, []);
    }
  }

  /** What filling the new inode `ino` with `i` blocks has changed since `d0`, `w0`: it has
      taken that many free blocks and the index blocks over them, and nothing else. */
  ghost predicate Filled(d0: seq<Block>, w0: World, d: seq<Block>, w: World, ino: int, i: int) {
    && OthersKept(d0, w0, d, w, ino) && w.owner.Keys == w0.owner.Keys
    && (forall x :: x in w0.owner && !w0.owner[x].Free() ==> w.owner[x] == w0.owner[x])
    && NumFree(w0.owner) == NumFree(w.owner) + i + IndexBlocks(i)
  }

  lemma FilledTake(d0: seq<Block>, w0: World, d: seq<Block>, w: World, ino: int, i: int, x: int, d': seq<Block>, w': World)
    requires Filled(d0, w0, d, w, ino, i) && Taken(d, w, d', w', x)
    requires NumFree(w'.owner) == NumFree(w.owner) - 1
    ensures OthersKept(d0, w0, d', w', ino) && w'.owner.Keys == w0.owner.Keys && x in w0.owner && w0.owner[x].Free()
    ensures forall y :: y in w0.owner && !w0.owner[y].Free() ==> w'.owner[y] == w0.owner[y]
  {
    hide NumFree, OthersKept, IndexBlocks;
    TakeOthers(d, w, ino, d0, w0, x, d', w');
  }

  lemma FilledAppend(d0: seq<Block>, w0: World, d: seq<Block>, lo: int, head: int, w: World, rec: InodeRec, ino: int, x: int,
                     d': seq<Block>, w': World, rec': InodeRec)
    requires InodeOk(d, lo, head, w, rec, ino) && 0 <= rec.blocks && x in w.owner && w.owner[x] == Held
    requires OthersKept(d0, w0, d, w, ino) && w.owner.Keys == w0.owner.Keys && w0.owner[x].Free()
    requires forall y :: y in w0.owner && !w0.owner[y].Free() ==> w.owner[y] == w0.owner[y]
    requires NumFree(w0.owner) == NumFree(w.owner) + 1 + rec.blocks + IndexBlocks(rec.blocks)
    requires Appended(d, w, rec, d', w', rec', ino, x)
    ensures rec'.blocks == rec.blocks + 1 && SameAttributes(rec, rec') && FileOk(d', rec', w'.files[ino])
    ensures |w'.files| == |w.files| && Filled(d0, w0, d', w', ino, rec.blocks + 1)
  {
    hide NumFree, OthersKept, IndexBlocks, WorldOk, FileOk, Grown;
    EvolvesKeeps(d, lo, head, w, d', w', ino, x, d0, w0);
  }

  /** Allocates a block and appends it to the inode. */
  method GrowByOne(disk: Disk, node: Inode, ghost ino: int, ghost d0: seq<Block>, ghost w0: World) returns (ok: bool)
    requires InodeOk(disk.D(), disk.inodeBlocks + 1, disk.freelistHead, disk.w, node.Rec(), ino)
    requires 0 <= node.blocks <= MAX_BLOCKS && Filled(d0, w0, disk.D(), disk.w, ino, node.blocks)
    modifies disk`freelistHead, disk`w, disk.store, node
    ensures disk.Sound() && OthersKept(d0, w0, disk.D(), disk.w, ino)
    ensures ok <==>
      old(node.blocks) < MAX_BLOCKS && old(node.blocks) + 1 + IndexBlocks(old(node.blocks) + 1) <= NumFree(w0.owner)
    ensures ok ==>
      && InodeOk(disk.D(), disk.inodeBlocks + 1, disk.freelistHead, disk.w, node.Rec(), ino)
      && node.blocks == old(node.blocks) + 1 && SameAttributes(old(node.Rec()), node.Rec())
      && Filled(d0, w0, disk.D(), disk.w, ino, node.blocks)
  {
    hide WorldOk, FileOk, Filled, NumFree, OthersKept, IndexBlocks, Appended, AppendFailed, SameOutsideFree, Allocate;
    ghost var d, lo, head, w, rec := disk.D(), disk.inodeBlocks + 1, disk.freelistHead, disk.w, node.Rec();
    HeadOf(d, lo, head, w);
    GrowthNatural(node.blocks);
    FilledFree(d0, w0, d, w, ino, node.blocks);
    FilledOthers(d0, w0, d, w, ino, node.blocks);
    AllocateRange(d, lo, head, w);
    var x := disk.AllocateDataBlock();
    if x <= 0 {
      return false;
    }
    ghost var d1, head1, w1 := disk.D(), disk.freelistHead, disk.w;
    TakeSame(d, lo, head, w, rec, ino, x, d1, head1, w1);
    FilledTake(d0, w0, d, w, ino, node.blocks, x, d1, w1);
    ok := AddDatablockToInode(disk, node, ino, x);
    AppendOthers(d1, lo, head1, w1, rec, disk.D(), disk.w, node.Rec(), ino, x, ok, d0, w0);
    if ok {
      FilledAppend(d0, w0, d1, lo, head1, w1, rec, ino, x, disk.D(), disk.w, node.Rec());
    }
  }

  lemma FilledFree(d0: seq<Block>, w0: World, d: seq<Block>, w: World, ino: int, i: int)
    requires Filled(d0, w0, d, w, ino, i)
    ensures NumFree(w0.owner) == NumFree(w.owner) + i + IndexBlocks(i)
  {
  }

  lemma NothingTaken(d: seq<Block>, lo: int, head: int, w: World, ino: int)
    requires WorldOk(d, lo, head, w)
    ensures Filled(d, w, d, w, ino, 0)
  {
    IndexBlocksClosed(0);
  }

  /** Deleting the filled inode gives back exactly what filling it had taken. */
  lemma CycleDone(d0: seq<Block>, lo: int, head0: int, w0: World, rec0: InodeRec, ino: int,
                  d: seq<Block>, w: World, rec: InodeRec, d': seq<Block>, w': World)
    requires InodeOk(d0, lo, head0, w0, rec0, ino) && rec0.blocks == 0
    requires Filled(d0, w0, d, w, ino, rec.blocks) && |w.files| == |w0.files|
    requires Reclaimed(d, w, rec, d', w', ino)
    ensures FreeSet(w'.owner) == FreeSet(w0.owner) && w'.files == w0.files
  {
    hide WorldOk, IndexBlocks, Need, TreesOk, Cut;
    FactsOf(d0, lo, head0, w0, rec0, ino);
    var f := w0.files[ino];
    CutAll(w.files[ino], f);
    forall x: nat | x in w0.owner && !w0.owner[x].Free() ensures x in w'.owner && !w'.owner[x].Free() {
      assert w0.owner[x].At? ==> PositionHolds(w0.files, w0.owner[x], x);
    }
    assert FreeSet(w'.owner) <= FreeSet(w0.owner);
    SameSize(FreeSet(w0.owner), FreeSet(w'.owner));
  }

  lemma FirstFree(inodes: seq<InodeRec>, inodes': seq<InodeRec>, inum: int, first: int, first': int)
    requires FirstInoOk(inodes, first) && FirstInoOk(inodes', first') && |inodes'| == |inodes|
    requires 3 <= inum < |inodes| && !inodes[inum].inUse && (forall i :: 3 <= i < inum ==> inodes[i].inUse)
    requires inodes' == inodes[inum := inodes'[inum]] && inodes'[inum].inUse
    ensures first == inum < first'
  {
    assert first <= inum;
  }

  lemma ZeroBlocks(d: seq<Block>, lo: int, head: int, w: World, inodes: seq<InodeRec>, inum: int)
    requires FsOk(d, lo, head, w, inodes) && 0 <= inum < |inodes| && inodes[inum].blocks == 0
    ensures
      var rec := inodes[inum].(inUse := true, links := 0);
      InodeOk(d, lo, head, w, rec, inum) && |w.files| == |inodes| && FsOk(d, lo, head, w, inodes[inum := rec])
  {
    hide WorldOk, FileOk;
    CreateKept(d, lo, head, w, inodes, inum);
    FsInode(d, lo, head, w, inodes[inum := inodes[inum].(inUse := true, links := 0)], inum);
  }

  /** Appends blocks to an inode without any, up to `n` of them. */
  method Fill(disk: Disk, node: Inode, n: nat, ghost ino: int, ghost d0: seq<Block>, ghost w0: World) returns (ok: bool)
    requires InodeOk(disk.D(), disk.inodeBlocks + 1, disk.freelistHead, disk.w, node.Rec(), ino)
    requires node.blocks == 0 && Filled(d0, w0, disk.D(), disk.w, ino, 0)
    modifies disk`freelistHead, disk`w, disk.store, node
    ensures disk.Sound() && OthersKept(d0, w0, disk.D(), disk.w, ino)
    ensures ok <==> n == 0 || (n <= MAX_BLOCKS && n + IndexBlocks(n) <= NumFree(w0.owner))
    ensures ok ==>
      && InodeOk(disk.D(), disk.inodeBlocks + 1, disk.freelistHead, disk.w, node.Rec(), ino)
      && node.blocks == n && SameAttributes(old(node.Rec()), node.Rec())
      && Filled(d0, w0, disk.D(), disk.w, ino, n)
  {
    hide WorldOk, FileOk, Filled, NumFree, IndexBlocks, OthersKept;
    FilledOthers(d0, w0, disk.D(), disk.w, ino, 0);
    for i := 0 to n
      invariant node.blocks == i <= MAX_BLOCKS
      invariant InodeOk(disk.D(), disk.inodeBlocks + 1, disk.freelistHead, disk.w, node.Rec(), ino)
      invariant Filled(d0, w0, disk.D(), disk.w, ino, i) && SameAttributes(old(node.Rec()), node.Rec())
      invariant i == 0 || i + IndexBlocks(i) <= NumFree(w0.owner)
      invariant OthersKept(d0, w0, disk.D(), disk.w, ino)
    {
      ok := GrowByOne(disk, node, ino, d0, w0);
      if !ok {
        TooMany(i + 1, n, NumFree(w0.owner));
        return;
      }
    }
    ok := true;
  }

  /** Creates an inode, appends `n` blocks to it and deletes it again: the free set, the
      trees, the inode table and the next inode number are what they were. */
  method LifeCycle(disk: Disk, n: nat) returns (ok: bool)
    requires TableOk(disk) && FirstInoOk(disk.inodes, disk.firstIno)
    requires FsOk(disk.D(), disk.inodeBlocks + 1, disk.freelistHead, disk.w, disk.inodes)
    requires disk.firstIno < |disk.inodes| ==> disk.inodes[disk.firstIno] == ZeroInode()
    modifies disk, disk.store
    ensures ok <==>
      && old(disk.firstIno) < |old(disk.inodes)| && n <= MAX_BLOCKS
      && (n == 0 || n + IndexBlocks(n) < old(NumFree(disk.w.owner)))
    ensures !ok && old(disk.firstIno) == |old(disk.inodes)| ==>
      disk.D() == old(disk.D()) && disk.w == old(disk.w) && disk.inodes == old(disk.inodes)
    ensures !ok && old(disk.firstIno) < |old(disk.inodes)| ==>
      && disk.Sound() && |disk.inodes| == |old(disk.inodes)| && FirstInoOk(disk.inodes, disk.firstIno)
      && disk.inodes == old(disk.inodes)[old(disk.firstIno) := disk.inodes[old(disk.firstIno)]]
      && OthersKept(old(disk.D()), old(disk.w), disk.D(), disk.w, old(disk.firstIno))
    ensures ok ==>
      && FreeSet(disk.w.owner) == old(FreeSet(disk.w.owner)) && disk.w.files == old(disk.w.files)
      && disk.inodes == old(disk.inodes) && disk.firstIno == old(disk.firstIno)
      && FsOk(disk.D(), disk.inodeBlocks + 1, disk.freelistHead, disk.w, disk.inodes)
  {
    hide WorldOk, FileOk, FsOk, Filled, NumFree, OthersKept, IndexBlocks, Reclaimed, FreeSet, Need;
    ghost var d0, lo, head0, w0, inodes0 := disk.D(), disk.inodeBlocks + 1, disk.freelistHead, disk.w, disk.inodes;
    ghost var first0 := disk.firstIno;
    var inum := AllocateInode(disk);
    if inum == -1 {
      return false;
    }
    FirstFree(inodes0, disk.inodes, inum, first0, disk.firstIno);
    ZeroBlocks(d0, lo, head0, w0, inodes0, inum);
    NothingTaken(d0, lo, head0, w0, inum);
    ghost var inodes1 := disk.inodes;
    var node := GetInode(disk, inum);
    var filled := Fill(disk, node, n, inum, d0, w0);
    if !filled {
      return false;
    }
    ghost var d, head, w, rec := disk.D(), disk.freelistHead, disk.w, node.Rec();
    HeadOf(d, lo, head, w);
    FilledFree(d0, w0, d, w, inum, n);
    var _ := WriteInode(disk, inum, node);
    if n > 0 && disk.freelistHead == 0 {
      return false;
    }
    FilledOthers(d0, w0, d, w, inum, n);
    UpdateOk(d0, lo, head0, w0, inodes1, d, head, w, rec, inum);
    FirstInoKept(inodes1, inum, rec, disk.firstIno);
    ok := FreeInode(disk, inum);
    CycleDone(d0, lo, head0, w0, inodes1[inum], inum, d, w, rec, disk.D(), disk.w);
  }

  lemma FilledOthers(d0: seq<Block>, w0: World, d: seq<Block>, w: World, ino: int, i: int)
    requires Filled(d0, w0, d, w, ino, i)
    ensures OthersKept(d0, w0, d, w, ino) && |w.files| == |w0.files|
  {
  }

  lemma TooMany(m: int, n: int, free: int)
    requires 0 < m <= n
    requires m > MAX_BLOCKS || m + IndexBlocks(m) > free
    ensures !(n <= MAX_BLOCKS && n + IndexBlocks(n) <= free)
  {
    hide IndexBlocks;
    IndexMonotone(m, n);
  }

  /** On a formatted device, as many allocations as there are data blocks return different
      data blocks, and the next one is the first to fail. */
  lemma FormattedDrains(d: seq<Block>, lo: int)
    requires 0 < lo < |d| && Formatted(d, lo)
    ensures
      var n: nat := |d| - lo;
      && Distinct(Drain(d, lo, n))
      && (forall i :: 0 <= i < n ==> lo <= Drain(d, lo, n)[i] < |d|)
      && Drain(d, lo, n + 1)[n] == -1
  {
    hide Formatted, WorldOk, Drain, Distinct, NumFree;
    var w := FreshWorld(lo, |d|, 0);
    FormattedOk(d, lo, 0);
    AllFree(lo, |d|, w.owner);
    OwnersInside(d, lo, lo, w);
    DrainAll(d, lo, lo, w, |d| - lo);
    DrainFails(d, lo, lo, w);
  }
}
