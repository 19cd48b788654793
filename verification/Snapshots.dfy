/** Runs as the client of the file system sees them: the blocks it holds, the block list of each
    inode, which inodes are in use, how many blocks are free, and what the blocks hold. */
module Snapshots {
  import opened Blocks
  import opened Ownership
  import opened BlockMap
  import opened Attaching
  import opened Cutting
  import opened Lookup
  import opened Append
  import opened Truncation
  import opened Places
  import opened Inodes
  import opened Files

  datatype Step =
    | TakeBlock
    | GiveBlock
    | Attach(inum: int)
    | CutAt(inum: int, n: int)
    | CreateInode
    | DeleteInode(inum: int)

  datatype Snapshot = Snapshot(held: seq<int>, lists: seq<seq<int>>, used: seq<bool>, free: int, blocks: seq<Block>)

  /** The block list of an inode with `n` blocks. */
  function ListOf(f: FileMap, n: int): seq<int> {
    if 0 <= n <= MAX_BLOCKS then Mapping(f, n) else []
  }

  ghost function Shot(d: seq<Block>, w: World, inodes: seq<InodeRec>, held: seq<int>): (s: Snapshot)
    ensures |s.lists| == |s.used| == |inodes| && s.held == held && s.blocks == d
  {
    Snapshot(held, seq(|inodes|, i requires 0 <= i < |inodes| => if i < |w.files| then ListOf(w.files[i], inodes[i].blocks) else []),
             seq(|inodes|, i requires 0 <= i < |inodes| => inodes[i].inUse), NumFree(w.owner), d)
  }

  /** The client holds block `x`, or a file has its data in it. */
  ghost predicate Visible(s: Snapshot, x: int) {
    x in s.held || exists i :: 0 <= i < |s.lists| && x in s.lists[i]
  }

  /** Data that is there before and after has not been touched. */
  ghost predicate BytesKept(s: Snapshot, s': Snapshot) {
    && |s'.blocks| == |s.blocks|
    && forall x :: Visible(s, x) && Visible(s', x) && 0 <= x < |s.blocks| ==> s'.blocks[x] == s.blocks[x]
  }

  /** Whether a step finds the blocks or the inode that it needs. */
  ghost predicate Possible(s: Snapshot, step: Step) {
    match step
    case TakeBlock => s.free > 0
    case Attach(inum) =>
      0 <= inum < |s.lists| && |s.lists[inum]| < MAX_BLOCKS && Growth(|s.lists[inum]|) <= s.free
    case CreateInode => exists i :: 3 <= i < |s.used| && !s.used[i]
    case _ => true
  }

  /** What a step does. */
  ghost predicate Follows(s: Snapshot, step: Step, s': Snapshot) {
    BytesKept(s, s') &&
    match step
    case TakeBlock =>
      && |s'.held| == |s.held| + 1
      && var x := s'.held[|s.held|];
         && !Visible(s, x) && 0 <= x < |s'.blocks| && s'.blocks[x] == ZeroBlock()
         && s' == s.(held := s.held + [x], free := s.free - 1, blocks := s'.blocks)
    case GiveBlock =>
      s.held != [] && s' == s.(held := s.held[1..], free := s.free + 1, blocks := s'.blocks)
    case Attach(inum) =>
      && s.held != [] && 0 <= inum < |s.lists|
      && s' == s.(held := s.held[1..], lists := s.lists[inum := s.lists[inum] + [s.held[0]]],
                  free := s.free - Growth(|s.lists[inum]|), blocks := s'.blocks)
    case CutAt(inum, n) =>
      && 0 <= inum < |s.lists| && 0 <= n <= |s.lists[inum]|
      && var m := |s.lists[inum]|;
         s' == s.(lists := s.lists[inum := s.lists[inum][..n]],
                  free := s.free + m - n + IndexBlocks(m) - IndexBlocks(n), blocks := s'.blocks)
    case CreateInode =>
      exists i :: 3 <= i < |s.used| && !s.used[i] && (forall j :: 3 <= j < i ==> s.used[j])
        && s' == s.(used := s.used[i := true])
    case DeleteInode(inum) =>
      && 0 <= inum < |s.lists| == |s.used|
      && var m := |s.lists[inum]|;
         s' == s.(lists := s.lists[inum := []], used := s.used[inum := false],
                  free := s.free + m + IndexBlocks(m), blocks := s'.blocks)
  }

  /** Only inode `inum` has changed: its list of blocks has got `b` at its end. */
  ghost predicate Extended(inodes: seq<InodeRec>, w: World, inodes': seq<InodeRec>, w': World, inum: int, b: int) {
    && 0 <= inum < |inodes| == |inodes'| && |w.files| == |w'.files| == |inodes|
    && inodes' == inodes[inum := inodes'[inum]] && SameAttributes(inodes[inum], inodes'[inum])
    && 0 <= inodes[inum].blocks < inodes'[inum].blocks <= MAX_BLOCKS
    && Mapping(w'.files[inum], inodes'[inum].blocks) == Mapping(w.files[inum], inodes[inum].blocks) + [b]
  }

  /** Only inode `inum` has changed: its list of blocks has been cut to the first `n`. */
  ghost predicate Shortened(inodes: seq<InodeRec>, w: World, inodes': seq<InodeRec>, w': World, inum: int, n: int) {
    && 0 <= inum < |inodes| == |inodes'| && |w.files| == |w'.files| == |inodes|
    && inodes' == inodes[inum := inodes'[inum]] && SameAttributes(inodes[inum], inodes'[inum])
    && 0 <= n == inodes'[inum].blocks <= inodes[inum].blocks <= MAX_BLOCKS
    && Mapping(w'.files[inum], n) == Mapping(w.files[inum], inodes[inum].blocks)[..n]
  }

  /** Only inode `inum` may have changed, and its list of blocks has not. */
  ghost predicate Kept(inodes: seq<InodeRec>, w: World, inodes': seq<InodeRec>, w': World, inum: int) {
    && 0 <= inum < |inodes| == |inodes'| && |w.files| == |w'.files| == |inodes|
    && inodes' == inodes[inum := inodes'[inum]] && SameAttributes(inodes[inum], inodes'[inum])
    && 0 <= inodes'[inum].blocks == inodes[inum].blocks <= MAX_BLOCKS
    && Mapping(w'.files[inum], inodes[inum].blocks) == Mapping(w.files[inum], inodes[inum].blocks)
  }

  ghost predicate IsData(o: Owner) {
    o.Held? || (o.At? && o.j == 0)
  }

  /** What is data before and after has not been touched. */
  ghost predicate DataKept(d: seq<Block>, w: World, d': seq<Block>, w': World) {
    && |d'| == |d|
    && forall x :: x in w.owner && x in w'.owner && IsData(w.owner[x]) && IsData(w'.owner[x]) ==>
         0 <= x < |d| && d'[x] == d[x]
  }

  lemma ListAt(d: seq<Block>, lo: int, head: int, w: World, inodes: seq<InodeRec>, held: seq<int>, i: int)
    requires FsOk(d, lo, head, w, inodes) && 0 <= i < |inodes|
    ensures |w.files| == |inodes| && 0 <= inodes[i].blocks <= MAX_BLOCKS
    ensures Shot(d, w, inodes, held).lists[i] == Mapping(w.files[i], inodes[i].blocks)
    ensures Shot(d, w, inodes, held).used[i] == inodes[i].inUse
  {
    hide WorldOk, Shaped, TreesOk, NumFree;
    assert FileOk(d, inodes[i], w.files[i]);
  }

  /** What is data in the snapshot is data in the bookkeeping. */
  lemma DataOwned(d: seq<Block>, lo: int, head: int, w: World, inodes: seq<InodeRec>, held: seq<int>, x: int)
    requires FsOk(d, lo, head, w, inodes) && HeldIs(w.owner, held) && Visible(Shot(d, w, inodes, held), x)
    ensures x in w.owner && IsData(w.owner[x])
  {
    hide WorldOk, FileOk, DataAt, NumFree, Shot;
    if x !in held {
      var s := Shot(d, w, inodes, held);
      var i :| 0 <= i < |s.lists| && x in s.lists[i];
      ListAt(d, lo, head, w, inodes, held, i);
      FsInode(d, lo, head, w, inodes, i);
      var l :| 0 <= l < inodes[i].blocks && s.lists[i][l] == x;
      DataOwner(d, lo, head, w, inodes[i], i, l);
    }
  }

  lemma ShotsKept(d: seq<Block>, lo: int, head: int, w: World, inodes: seq<InodeRec>, held: seq<int>,
                  d': seq<Block>, head': int, w': World, inodes': seq<InodeRec>, held': seq<int>)
    requires FsOk(d, lo, head, w, inodes) && HeldIs(w.owner, held)
    requires FsOk(d', lo, head', w', inodes') && HeldIs(w'.owner, held') && DataKept(d, w, d', w')
    ensures BytesKept(Shot(d, w, inodes, held), Shot(d', w', inodes', held'))
  {
    hide FsOk, HeldIs, IsData, Shot, Visible;
    var s, s' := Shot(d, w, inodes, held), Shot(d', w', inodes', held');
    forall x | Visible(s, x) && Visible(s', x) && 0 <= x < |d| ensures d'[x] == d[x] {
      DataOwned(d, lo, head, w, inodes, held, x);
      DataOwned(d', lo, head', w', inodes', held', x);
    }
  }

  /** A change to one inode changes one list. */
  lemma ShotUpdated(d: seq<Block>, w: World, inodes: seq<InodeRec>, held: seq<int>,
                    d': seq<Block>, w': World, inodes': seq<InodeRec>, held': seq<int>, inum: int, list: seq<int>)
    requires 0 <= inum < |inodes| == |inodes'| == |w.files| == |w'.files| && inodes' == inodes[inum := inodes'[inum]]
    requires forall i :: 0 <= i < |inodes| && i != inum ==> w'.files[i] == w.files[i]
    requires ListOf(w'.files[inum], inodes'[inum].blocks) == list
    ensures
      var s := Shot(d, w, inodes, held);
      Shot(d', w', inodes', held') ==
        Snapshot(held', s.lists[inum := list], s.used[inum := inodes'[inum].inUse], NumFree(w'.owner), d')
  {
    hide ListOf, NumFree;
  }

  lemma TakeFollows(d: seq<Block>, lo: int, head: int, w: World, inodes: seq<InodeRec>, held: seq<int>,
                    d': seq<Block>, head': int, w': World, x: int)
    requires FsOk(d, lo, head, w, inodes) && HeldIs(w.owner, held)
    requires FsOk(d', lo, head', w', inodes) && HeldIs(w'.owner, held + [x])
    requires 0 <= x < |d'| && x in w.owner && w.owner[x].Free() && w'.owner == w.owner[x := Held] && w'.files == w.files
    requires SameOutsideFree(d, d', w.owner) && d'[x] == ZeroBlock()
    ensures Follows(Shot(d, w, inodes, held), TakeBlock, Shot(d', w', inodes, held + [x]))
  {
    hide FileOk, HeldIs, Visible, FreeListOk, PositionsOk, NumFree, ListOf;
    var s := Shot(d, w, inodes, held);
    if Visible(s, x) {
      DataOwned(d, lo, head, w, inodes, held, x);
    }
    ShotsKept(d, lo, head, w, inodes, held, d', head', w', inodes, held + [x]);
    NumFreeStep(w.owner, x, Held);
  }

  lemma GiveFollows(d: seq<Block>, lo: int, head: int, w: World, inodes: seq<InodeRec>, held: seq<int>,
                    d': seq<Block>, head': int, w': World)
    requires FsOk(d, lo, head, w, inodes) && HeldIs(w.owner, held) && held != []
    requires FsOk(d', lo, head', w', inodes) && HeldIs(w'.owner, held[1..])
    requires held[0] in w.owner && w.owner[held[0]] == Held && held[0] in w'.owner && w'.owner[held[0]].Free()
    requires w'.owner == w.owner[held[0] := w'.owner[held[0]]] && w'.files == w.files
    requires SameOutsideFree(d, d', w'.owner)
    ensures Follows(Shot(d, w, inodes, held), GiveBlock, Shot(d', w', inodes, held[1..]))
  {
    hide FileOk, HeldIs, Visible, FreeListOk, PositionsOk, NumFree, ListOf;
    ShotsKept(d, lo, head, w, inodes, held, d', head', w', inodes, held[1..]);
    NumFreeMore(w.owner, held[0], w'.owner[held[0]]);
  }

  lemma AttachFollows(d: seq<Block>, lo: int, head: int, w: World, inodes: seq<InodeRec>, held: seq<int>,
                      d': seq<Block>, head': int, w': World, inodes': seq<InodeRec>, inum: int)
    requires FsOk(d, lo, head, w, inodes) && HeldIs(w.owner, held) && held != [] && 0 <= inum < |inodes|
    requires FsOk(d', lo, head', w', inodes') && HeldIs(w'.owner, held[1..])
    requires 0 <= inodes[inum].blocks && |inodes'| == |inodes|
    requires Appended(d, w, inodes[inum], d', w', inodes'[inum], inum, held[0])
    requires Extended(inodes, w, inodes', w', inum, held[0])
    ensures Follows(Shot(d, w, inodes, held), Attach(inum), Shot(d', w', inodes', held[1..]))
  {
    hide FsOk, FileOk, HeldIs, Visible, NumFree, Grown, Shot, Mapping, Growth;
    FsWorld(d, lo, head, w, inodes);
    AttachData(d, lo, head, w, inodes[inum], d', w', inodes'[inum], inum, held);
    ShotsKept(d, lo, head, w, inodes, held, d', head', w', inodes', held[1..]);
    ListAt(d, lo, head, w, inodes, held, inum);
    ShotUpdated(d, w, inodes, held, d', w', inodes', held[1..], inum,
                Mapping(w.files[inum], inodes[inum].blocks) + [held[0]]);
    ShotFree(d, w, inodes, held);
    MappingSize(w.files[inum], inodes[inum].blocks);
  }

  lemma MappingSize(f: FileMap, n: int)
    requires 0 <= n <= MAX_BLOCKS
    ensures |Mapping(f, n)| == n
  {
  }

  lemma ShotFree(d: seq<Block>, w: World, inodes: seq<InodeRec>, held: seq<int>)
    ensures Shot(d, w, inodes, held).free == NumFree(w.owner)
    ensures forall i :: 0 <= i < |inodes| ==> Shot(d, w, inodes, held).used[i] == inodes[i].inUse
  {
    hide NumFree, ListOf;
  }

  lemma AttachData(d: seq<Block>, lo: int, head: int, w: World, rec: InodeRec, d': seq<Block>, w': World, rec': InodeRec,
                   ino: int, held: seq<int>)
    requires WorldOk(d, lo, head, w) && HeldIs(w.owner, held) && held != []
    requires 0 <= ino < |w.files| && 0 <= rec.blocks && Appended(d, w, rec, d', w', rec', ino, held[0])
    ensures DataKept(d, w, d', w')
  {
    hide FileOk, Grown, Growth, NumFree, FreeListOk, PositionsOk;
    assert held[0] in held;
  }

  lemma CutFollows(d: seq<Block>, lo: int, head: int, w: World, inodes: seq<InodeRec>, held: seq<int>,
                   d': seq<Block>, head': int, w': World, inodes': seq<InodeRec>, inum: int, n: int)
    requires FsOk(d, lo, head, w, inodes) && HeldIs(w.owner, held) && 0 <= inum < |inodes|
    requires FsOk(d', lo, head', w', inodes') && HeldIs(w'.owner, held) && |inodes'| == |inodes|
    requires 0 <= n <= inodes[inum].blocks <= MAX_BLOCKS
    requires Truncated(d, w, inodes[inum], d', w', inodes'[inum], inum, n)
    requires Shortened(inodes, w, inodes', w', inum, n)
    ensures Follows(Shot(d, w, inodes, held), CutAt(inum, n), Shot(d', w', inodes', held))
  {
    hide FsOk, FileOk, HeldIs, Visible, NumFree, Shot, Mapping, IndexBlocks, Cut, Stable, Beyond;
    FsWorld(d, lo, head, w, inodes);
    CutFrame(d, lo, head, w, inodes[inum], d', w', inodes'[inum], inum, n);
    ShotsKept(d, lo, head, w, inodes, held, d', head', w', inodes', held);
    ListAt(d, lo, head, w, inodes, held, inum);
    ShotUpdated(d, w, inodes, held, d', w', inodes', held, inum, Mapping(w.files[inum], inodes[inum].blocks)[..n]);
    ShotFree(d, w, inodes, held);
    MappingSize(w.files[inum], inodes[inum].blocks);
  }

  lemma CutFrame(d: seq<Block>, lo: int, head: int, w: World, rec: InodeRec, d': seq<Block>, w': World, rec': InodeRec,
                 ino: int, n: int)
    requires WorldOk(d, lo, head, w) && 0 <= ino < |w.files| && 0 <= n <= rec.blocks <= MAX_BLOCKS
    requires Truncated(d, w, rec, d', w', rec', ino, n)
    ensures DataKept(d, w, d', w')
  {
    hide FileOk, Cut, NumFree, Beyond, IndexBlocks, FreeListOk, PositionsOk;
  }

  lemma CreateFollows(d: seq<Block>, w: World, inodes: seq<InodeRec>, held: seq<int>, inodes': seq<InodeRec>, inum: int)
    requires |w.files| == |inodes| && 3 <= inum < |inodes| && !inodes[inum].inUse
    requires forall i :: 3 <= i < inum ==> inodes[i].inUse
    requires inodes' == inodes[inum := inodes[inum].(inUse := true, links := 0)]
    ensures Follows(Shot(d, w, inodes, held), CreateInode, Shot(d, w, inodes', held))
  {
    hide NumFree, ListOf, Visible;
    var s, s' := Shot(d, w, inodes, held), Shot(d, w, inodes', held);
    assert s' == s.(used := s.used[inum := true]);
    assert !s.used[inum];
  }

  lemma DeleteFollows(d: seq<Block>, lo: int, head: int, w: World, inodes: seq<InodeRec>, held: seq<int>,
                      d': seq<Block>, head': int, w': World, inum: int)
    requires FsOk(d, lo, head, w, inodes) && HeldIs(w.owner, held) && 0 <= inum < |inodes|
    requires FsOk(d', lo, head', w', inodes[inum := ZeroInode()]) && HeldIs(w'.owner, held)
    requires |w.files| == |inodes| && Reclaimed(d, w, inodes[inum], d', w', inum)
    ensures Follows(Shot(d, w, inodes, held), DeleteInode(inum), Shot(d', w', inodes[inum := ZeroInode()], held))
  {
    hide FsOk, HeldIs, Visible, NumFree, Shot, Mapping, IndexBlocks, Cut, Beyond, WorldOk;
    FsWorld(d, lo, head, w, inodes);
    DeleteFrame(d, lo, head, w, inodes[inum], d', w', inum);
    ShotsKept(d, lo, head, w, inodes, held, d', head', w', inodes[inum := ZeroInode()], held);
    ListAt(d, lo, head, w, inodes, held, inum);
    EmptyList(w'.files[inum]);
    ShotUpdated(d, w, inodes, held, d', w', inodes[inum := ZeroInode()], held, inum, []);
    ShotFree(d, w, inodes, held);
    MappingSize(w.files[inum], inodes[inum].blocks);
  }

  lemma EmptyList(f: FileMap)
    ensures ListOf(f, 0) == []
  {
  }

  lemma DeleteFrame(d: seq<Block>, lo: int, head: int, w: World, rec: InodeRec, d': seq<Block>, w': World, ino: int)
    requires WorldOk(d, lo, head, w) && 0 <= ino < |w.files| && Reclaimed(d, w, rec, d', w', ino)
    ensures DataKept(d, w, d', w')
  {
    hide Cut, NumFree, Beyond, IndexBlocks, FreeListOk, PositionsOk;
  }

  /** A failed append shows only in the number of free blocks. */
  lemma StuckShot(d: seq<Block>, w: World, inodes: seq<InodeRec>, held: seq<int>,
                  d': seq<Block>, w': World, inodes': seq<InodeRec>, inum: int)
    requires Kept(inodes, w, inodes', w', inum) && OthersKept(d, w, d', w', inum)
    ensures
      Shot(d', w', inodes', held) == Shot(d, w, inodes, held).(free := NumFree(w'.owner), blocks := d')
  {
    hide NumFree, Mapping;
    ShotUpdated(d, w, inodes, held, d', w', inodes', held, inum, Mapping(w.files[inum], inodes[inum].blocks));
    ShotFree(d, w, inodes, held);
    assert Shot(d, w, inodes, held).lists[inum] == Mapping(w.files[inum], inodes[inum].blocks);
  }

  lemma StuckData(d: seq<Block>, lo: int, head: int, w: World, inodes: seq<InodeRec>, held: seq<int>,
                  d': seq<Block>, w': World, rec': InodeRec, inum: int)
    requires FsOk(d, lo, head, w, inodes) && HeldIs(w.owner, held) && held != [] && 0 <= inum < |inodes|
    requires |w.files| == |inodes| && 0 <= inodes[inum].blocks
    requires AppendFailed(d, w, inodes[inum], d', w', rec', inum, held[0])
    requires Shot(d', w', inodes[inum := rec'], held) == Shot(d, w, inodes, held).(free := NumFree(w'.owner), blocks := d')
    ensures BytesKept(Shot(d, w, inodes, held), Shot(d', w', inodes[inum := rec'], held))
  {
    hide FileOk, HeldIs, Shot, Visible, NumFree, Growth, Rooted, TreesOk, FreeListOk, PositionsOk, OneMore;
    var s := Shot(d, w, inodes, held);
    forall x | Visible(s, x) && 0 <= x < |d| ensures d'[x] == d[x] {
      DataOwned(d, lo, head, w, inodes, held, x);
    }
    SameVisible(s, Shot(d', w', inodes[inum := rec'], held));
  }

  lemma SameVisible(s: Snapshot, s': Snapshot)
    requires s'.held == s.held && s'.lists == s.lists
    ensures forall x :: Visible(s', x) <==> Visible(s, x)
  {
  }
}
