/** Creating and deleting files by path: which paths then resolve, and to what. */
module Namespace {
  import opened Blocks
  import opened Ownership
  import opened BlockMap
  import opened Attaching
  import opened Content
  import opened Cutting
  import opened Disk
  import opened Lookup
  import opened Append
  import opened Inodes
  import opened Files
  import opened Writes
  import opened Records
  import opened Listings
  import opened Directory
  import opened Paths

  const ENOENT: int := 2
  const EACCES: int := 13
  const ENOTEMPTY: int := 39
  const EDQUOT: int := 122

  /** The error numbers of Linux. */
  lemma ErrnoValues()
    ensures ENOENT == 2 && EACCES == 13 && EINVAL == 22 && ENOTEMPTY == 39 && EOVERFLOW == 75 && EDQUOT == 122
  {
  }

  type Tree = seq<seq<seq<Record>>>

  /** The directories after inode `r` has been entered as `name` in directory `parent`. */
  function WithFile(dirs: Tree, parent: int, name: seq<byte>, r: int): Tree
    requires 0 <= parent < |dirs| && 0 <= r < |dirs|
  {
    dirs[parent := Added(dirs[parent], Record(r, name))][r := []]
  }

  /** The directories after `name` has been taken out of directory `parent`, and inode `r` deleted. */
  function WithoutFile(dirs: Tree, parent: int, name: seq<byte>, r: int): Tree
    requires 0 <= parent < |dirs| && 0 <= r < |dirs|
  {
    dirs[parent := Removed(dirs[parent], name)][r := []]
  }

  /** The path `q` is `name` in the directory `parent`, however it is written. */
  predicate Denotes(inodes: seq<InodeRec>, dirs: Tree, q: seq<byte>, parent: int, name: seq<byte>) {
    q != [SLASH] && ParentIndex(q) >= 0 && NameOf(inodes, dirs, Parent(q)) == parent && FileName(q) == name
  }

  /** No directory has a record for inode `r`. */
  ghost predicate Unnamed(inodes: seq<InodeRec>, dirs: Tree, r: int) {
    forall i, name :: Child(inodes, dirs, i, name) != r
  }

  /** One step of a walk after a file has been added. */
  lemma ChildAfterCreate(inodes: seq<InodeRec>, dirs: Tree, inodes': seq<InodeRec>, parent: int, name: seq<byte>, r: int,
                         i: int, other: seq<byte>)
    requires |dirs| == |inodes| == |inodes'| && 0 <= parent < |inodes| && 0 <= r < |inodes| && r != parent
    requires inodes[parent].isDir && LookupIn(Entries(dirs[parent]), name) == None
    requires forall j :: 0 <= j < |inodes| && j != r ==> inodes'[j].isDir == inodes[j].isDir
    ensures Child(inodes', WithFile(dirs, parent, name, r), i, other) ==
      if i == r then -1 else if i == parent && other == name then r else Child(inodes, dirs, i, other)
  {
    hide Added, Entries;
    if i == r {
      NoEntries(other);
    } else if i == parent {
      AddFinds(dirs[parent], Record(r, name), other);
    }
  }

  lemma NoEntries(name: seq<byte>)
    ensures Entries([]) == [] && LookupIn([], name) == None && UniqueNames([])
  {
  }

  /** Creating `name` in `parent` makes exactly the paths that denote it resolve to the new
      inode; every other path resolves as before. */
  lemma {:induction false} CreateResolves(inodes: seq<InodeRec>, dirs: Tree, inodes': seq<InodeRec>, parent: int,
                                          name: seq<byte>, r: int, q: seq<byte>)
    requires |dirs| == |inodes| == |inodes'| && 0 <= parent < |inodes| && 0 <= r < |inodes| && r != parent
    requires inodes[parent].isDir && LookupIn(Entries(dirs[parent]), name) == None
    requires forall j :: 0 <= j < |inodes| && j != r ==> inodes'[j].isDir == inodes[j].isDir
    requires Unnamed(inodes, dirs, r) && r != ROOT_INODE_NUM
    ensures NameOf(inodes, dirs, q) != r
    ensures NameOf(inodes', WithFile(dirs, parent, name, r), q) ==
      if Denotes(inodes, dirs, q, parent, name) then r else NameOf(inodes, dirs, q)
    decreases |q|
  {
    hide Child, WithFile, ParentIndex, Parent, FileName, LookupIn, Entries;
    if q != [SLASH] && ParentIndex(q) >= 0 {
      ParentShorter(q);
      CreateResolves(inodes, dirs, inodes', parent, name, r, Parent(q));
      var p := NameOf(inodes, dirs, Parent(q));
      ChildAfterCreate(inodes, dirs, inodes', parent, name, r, p, FileName(q));
      ChildAfterCreate(inodes, dirs, inodes', parent, name, r, r, FileName(q));
      AbsentChild(inodes, dirs, parent, name);
    }
  }

  lemma AbsentChild(inodes: seq<InodeRec>, dirs: Tree, parent: int, name: seq<byte>)
    requires |dirs| == |inodes| && 0 <= parent < |inodes|
    ensures LookupIn(Entries(dirs[parent]), name) == None ==> Child(inodes, dirs, parent, name) == -1
    ensures Child(inodes, dirs, -1, name) == -1
  {
  }

  /** The way to `q` passes through inode `r`. */
  predicate Passes(inodes: seq<InodeRec>, dirs: Tree, q: seq<byte>, r: int)
    decreases |q|
  {
    NameOf(inodes, dirs, q) == r || (q != [SLASH] && ParentIndex(q) >= 0 && Passes(inodes, dirs, Parent(q), r))
  }

  /** The only name of inode `r` outside its own directory is `name` in `parent`. */
  ghost predicate SoleName(inodes: seq<InodeRec>, dirs: Tree, r: int, parent: int, name: seq<byte>) {
    forall i, other :: i != r && Child(inodes, dirs, i, other) == r ==> i == parent && other == name
  }

  /** One step of a walk after a file has been taken out. */
  lemma ChildAfterDelete(inodes: seq<InodeRec>, dirs: Tree, inodes': seq<InodeRec>, parent: int, name: seq<byte>, r: int,
                         i: int, other: seq<byte>)
    requires |dirs| == |inodes| == |inodes'| && 0 <= parent < |inodes| && 0 <= r < |inodes| && r != parent
    requires inodes[parent].isDir && LookupIn(Entries(dirs[parent]), name).Some? && UniqueNames(Entries(dirs[parent]))
    requires forall j :: 0 <= j < |inodes| && j != r ==> inodes'[j].isDir == inodes[j].isDir
    ensures Child(inodes', WithoutFile(dirs, parent, name, r), i, other) ==
      if i == r || (i == parent && other == name) then -1 else Child(inodes, dirs, i, other)
  {
    hide Removed, Entries;
    if i == r {
      NoEntries(other);
    } else if i == parent {
      RemoveFinds(dirs[parent], name, other);
    }
  }

  /** Deleting the file makes exactly the paths through it fail; every other path resolves
      as before. */
  lemma {:induction false} DeleteResolves(inodes: seq<InodeRec>, dirs: Tree, inodes': seq<InodeRec>, parent: int,
                                          name: seq<byte>, r: int, q: seq<byte>)
    requires |dirs| == |inodes| == |inodes'| && 0 <= parent < |inodes| && 0 <= r < |inodes| && r != parent
    requires inodes[parent].isDir && LookupIn(Entries(dirs[parent]), name).Some? && UniqueNames(Entries(dirs[parent]))
    requires forall j :: 0 <= j < |inodes| && j != r ==> inodes'[j].isDir == inodes[j].isDir
    requires Child(inodes, dirs, parent, name) == r && r != ROOT_INODE_NUM && SoleName(inodes, dirs, r, parent, name)
    ensures NameOf(inodes', WithoutFile(dirs, parent, name, r), q) ==
      if Passes(inodes, dirs, q, r) then -1 else NameOf(inodes, dirs, q)
    decreases |q|
  {
    hide Child, WithoutFile, ParentIndex, Parent, FileName, LookupIn, Entries, UniqueNames;
    if q != [SLASH] && ParentIndex(q) >= 0 {
      ParentShorter(q);
      DeleteResolves(inodes, dirs, inodes', parent, name, r, Parent(q));
      var p := NameOf(inodes, dirs, Parent(q));
      ChildAfterDelete(inodes, dirs, inodes', parent, name, r, p, FileName(q));
      AbsentChild(inodes, dirs, parent, name);
    }
  }

  /** A path resolves to an inode in use, or not at all. */
  lemma {:induction false} NamedInUse(d: seq<Block>, w: World, inodes: seq<InodeRec>, dirs: Tree, q: seq<byte>)
    requires NamespaceOk(d, w, inodes, dirs)
    ensures NameOf(inodes, dirs, q) != -1 ==>
      0 <= NameOf(inodes, dirs, q) < |inodes| && inodes[NameOf(inodes, dirs, q)].inUse
    decreases |q|
  {
    hide DirOk, ParentIndex, Parent, FileName, LookupIn, Entries, UniqueNames;
    if q != [SLASH] && ParentIndex(q) >= 0 {
      ParentShorter(q);
      NamedInUse(d, w, inodes, dirs, Parent(q));
      var p := NameOf(inodes, dirs, Parent(q));
      if 0 <= p < |inodes| && inodes[p].isDir {
        assert NamesUsed(inodes, dirs[p], FileName(q));
      }
    }
  }

  /** No record names an inode that is not in use. */
  lemma UnusedUnnamed(d: seq<Block>, w: World, inodes: seq<InodeRec>, dirs: Tree, r: int)
    requires NamespaceOk(d, w, inodes, dirs) && 0 <= r < |inodes| && !inodes[r].inUse
    ensures Unnamed(inodes, dirs, r)
  {
    hide DirOk, Entries, UniqueNames;
    forall i, name ensures Child(inodes, dirs, i, name) != r {
      if 0 <= i < |inodes| && inodes[i].isDir {
        assert NamesUsed(inodes, dirs[i], name);
      }
    }
  }

  /** A directory that an operation on another inode has not touched. */
  lemma DirKept(d: seq<Block>, lo: int, head: int, w: World, rec: InodeRec, i: int, dirs: seq<seq<Record>>,
                d': seq<Block>, w': World, ino: int)
    requires InodeOk(d, lo, head, w, rec, i) && DirOk(d, rec, w.files[i], dirs)
    requires i != ino && OthersKept(d, w, d', w', ino)
    ensures |w'.files| == |w.files| && DirOk(d', rec, w'.files[i], dirs)
  {
    hide Packed, FileOk, DataAt, Entries;
    forall k | 0 <= k < |dirs| ensures DirBlock(d', w'.files[i], k, dirs[k]) {
      DataOwner(d, lo, head, w, rec, i, k);
      assert DirBlock(d, w.files[i], k, dirs[k]);
    }
  }

  lemma FreshDir(d: seq<Block>, f: FileMap, rec: InodeRec)
    requires rec.isDir && rec.blocks == 0 && rec.size == 0 && rec.children == 0
    ensures DirOk(d, rec, f, [])
  {
    NoEntries([]);
  }

  /** The record of a new file. */
  function NewInode(isDir: bool): InodeRec {
    ZeroInode().(isDir := isDir, links := 1, inUse := true)
  }

  /** Entering a new inode `r` as `name` in `parent` keeps the namespace in order. */
  lemma CreateNamespace(d: seq<Block>, lo: int, head: int, w: World, inodes: seq<InodeRec>, dirs: Tree,
                        d': seq<Block>, w': World, inodes': seq<InodeRec>, parent: int, name: seq<byte>, r: int, isDir: bool)
    requires FsOk(d, lo, head, w, inodes) && NamespaceOk(d, w, inodes, dirs) && OthersKept(d, w, d', w', parent)
    requires 0 <= parent < |inodes| && 3 <= r < |inodes| && r != parent
    requires inodes[parent].isDir && inodes[parent].inUse && LookupIn(Entries(dirs[parent]), name) == None
    requires |inodes'| == |inodes| && inodes' == inodes[parent := inodes'[parent]][r := NewInode(isDir)]
    requires inodes'[parent].inUse && inodes'[parent].isDir
    requires DirOk(d', inodes'[parent], w'.files[parent], Added(dirs[parent], Record(r, name)))
    ensures NamespaceOk(d', w', inodes', WithFile(dirs, parent, name, r))
  {
    hide FsOk, DirOk, Entries, Added, UniqueNames, LookupIn;
    var dirs' := WithFile(dirs, parent, name, r);
    forall i | 0 <= i < |inodes'| && inodes'[i].isDir
      ensures DirOk(d', inodes'[i], w'.files[i], dirs'[i]) && UniqueNames(Entries(dirs'[i]))
    {
      if i == r {
        FreshDir(d', w'.files[r], inodes'[r]);
        NoEntries(name);
      } else if i == parent {
        AddFinds(dirs[parent], Record(r, name), name);
      } else {
        FsInode(d, lo, head, w, inodes, i);
        DirKept(d, lo, head, w, inodes[i], i, dirs[i], d', w', parent);
      }
    }
    forall i, other | 0 <= i < |inodes'| && inodes'[i].isDir ensures NamesUsed(inodes', dirs'[i], other) {
      if i == r {
        NoEntries(other);
      } else {
        assert NamesUsed(inodes, dirs[i], other);
        if i == parent {
          AddFinds(dirs[parent], Record(r, name), other);
        }
      }
    }
  }

  /** What a successful create leaves. */
  ghost predicate Created(inodes: seq<InodeRec>, dirs: Tree, disk: Disk, path: seq<byte>, isDir: bool, r: int)
    requires ParentIndex(path) >= 0 && |dirs| == |inodes|
    reads disk, disk.store
  {
    var parent := NameOf(inodes, dirs, Parent(path));
    && TableOk(disk) && FirstInoOk(disk.inodes, disk.firstIno) && |disk.inodes| == |inodes|
    && FsOk(disk.D(), disk.inodeBlocks + 1, disk.freelistHead, disk.w, disk.inodes)
    && 0 <= parent < |inodes| && inodes[parent].isDir
    && 3 <= r < |inodes| && !inodes[r].inUse && (forall i :: 3 <= i < r ==> inodes[i].inUse)
    && disk.inodes == inodes[parent := disk.inodes[parent]][r := NewInode(isDir)]
    && DirAttributes(inodes[parent], disk.inodes[parent])
    && NamespaceOk(disk.D(), disk.w, disk.inodes, WithFile(dirs, parent, FileName(path), r))
    && forall q :: NameOf(disk.inodes, WithFile(dirs, parent, FileName(path), r), q) ==
         if Denotes(inodes, dirs, q, parent, FileName(path)) then r else NameOf(inodes, dirs, q)
  }

  lemma AttributesKept(rec: InodeRec, rec': InodeRec)
    requires DirAttributes(rec, rec')
    ensures rec'.inUse == rec.inUse && rec'.isDir == rec.isDir
  {
  }

  /** Filling in the record of a new inode does not touch its block map. */
  lemma FillRecord(d: seq<Block>, lo: int, head: int, w: World, inodes: seq<InodeRec>, r: int, isDir: bool)
    requires FsOk(d, lo, head, w, inodes) && 0 <= r < |inodes|
    requires inodes[r] == ZeroInode().(inUse := true)
    ensures FsOk(d, lo, head, w, inodes[r := NewInode(isDir)])
  {
    hide WorldOk, Shaped, TreesOk;
  }

  lemma AbsentName(d: seq<Block>, w: World, inodes: seq<InodeRec>, dirs: Tree, path: seq<byte>)
    requires NamespaceOk(d, w, inodes, dirs) && NameOf(inodes, dirs, path) == -1 && ParentIndex(path) >= 0
    ensures
      var p := NameOf(inodes, dirs, Parent(path));
      && path != [SLASH]
      && (p != -1 && 0 <= p < |inodes| && inodes[p].isDir ==> LookupIn(Entries(dirs[p]), FileName(path)) == None)
  {
    hide DirOk, Entries, UniqueNames;
    var p := NameOf(inodes, dirs, Parent(path));
    if p != -1 && 0 <= p < |inodes| && inodes[p].isDir {
      assert NamesUsed(inodes, dirs[p], FileName(path));
    }
  }

  lemma NameIsCString(path: seq<byte>)
    requires CString(path) && ParentIndex(path) >= 0
    ensures CString(FileName(path))
  {
  }

  lemma DirAt(d: seq<Block>, w: World, inodes: seq<InodeRec>, dirs: Tree, i: int)
    requires NamespaceOk(d, w, inodes, dirs) && 0 <= i < |inodes|
    ensures |dirs| == |inodes| == |w.files| && (inodes[i].isDir ==> DirOk(d, inodes[i], w.files[i], dirs[i]))
    ensures 3 <= i && !inodes[i].inUse ==> inodes[i] == ZeroInode()
  {
  }

  /** Undoes the allocation of an inode whose name could not be entered. */
  method UndoCreate(disk: Disk, r: int, ghost d0: seq<Block>, ghost head0: int, ghost w0: World, ghost parent: int)
    requires TableOk(disk) && FirstInoOk(disk.inodes, disk.firstIno) && disk.Sound() && 3 <= r < |disk.inodes|
    requires FsOk(d0, disk.inodeBlocks + 1, head0, w0, disk.inodes) && r != parent
    requires OthersKept(d0, w0, disk.D(), disk.w, parent) && disk.inodes[r].blocks == 0
    modifies disk, disk.store
    ensures TableOk(disk) && disk.Sound() && disk.inodes == old(disk.inodes)[r := ZeroInode()]
    ensures FirstInoOk(disk.inodes, disk.firstIno) && OthersKept(d0, w0, disk.D(), disk.w, parent)
    ensures disk.D() == old(disk.D()) && disk.w.files == old(disk.w.files)
  {
    hide WorldOk, FileOk, FsOk, OthersKept, Reclaimed, AsBefore;
    ghost var d, lo, head, w, rec := disk.D(), disk.inodeBlocks + 1, disk.freelistHead, disk.w, disk.inodes[r];
    FsInode(d0, lo, head0, w0, disk.inodes, r);
    OtherFileKept(d0, lo, head0, w0, d, w, parent, r, rec, []);
    SameCount(d0, w0, d, w, parent);
    var _ := FreeInode(disk, r);
    NothingFreed(d, lo, head, w, rec, disk.D(), disk.w, r);
    AsBeforeFiles(d, w, disk.D(), disk.w);
    KeptAfter(d0, w0, d, w, disk.D(), disk.w, parent);
  }

  /** Nothing of any inode has changed. */
  ghost predicate AsBefore(d: seq<Block>, w: World, d': seq<Block>, w': World) {
    && |d'| == |d| && w'.files == w.files
    && forall x :: x in w.owner && w.owner[x].At? ==>
         x in w'.owner && w'.owner[x] == w.owner[x] && 0 <= x < |d| && d'[x] == d[x]
  }

  lemma NothingFreed(d: seq<Block>, lo: int, head: int, w: World, rec: InodeRec, d': seq<Block>, w': World, r: int)
    requires InodeOk(d, lo, head, w, rec, r) && rec.blocks == 0 && Reclaimed(d, w, rec, d', w', r)
    ensures AsBefore(d, w, d', w')
  {
    hide WorldOk, FileOk, Reclaimed;
    ReclaimedNothing(d, lo, head, w, rec, d', w', r);
  }

  lemma AsBeforeFiles(d: seq<Block>, w: World, d': seq<Block>, w': World)
    requires AsBefore(d, w, d', w')
    ensures w'.files == w.files
  {
  }

  lemma KeptAfter(d0: seq<Block>, w0: World, d: seq<Block>, w: World, d': seq<Block>, w': World, ino: int)
    requires OthersKept(d0, w0, d, w, ino) && AsBefore(d, w, d', w')
    ensures OthersKept(d0, w0, d', w', ino)
  {
  }

  lemma SameCount(d: seq<Block>, w: World, d': seq<Block>, w': World, ino: int)
    requires OthersKept(d, w, d', w', ino)
    ensures |w'.files| == |w.files| && |d'| == |d|
  {
  }

  /** Writes the changed parent back, and the record of the new inode. */
  method WriteBoth(disk: Disk, parent: Inode, p: int, r: int, isDir: bool, ghost inodes0: seq<InodeRec>)
    requires TableOk(disk) && FirstInoOk(disk.inodes, disk.firstIno)
    requires 0 <= p < |disk.inodes| && 3 <= r < |disk.inodes| && p != r && |inodes0| == |disk.inodes|
    requires disk.inodes == inodes0[r := ZeroInode().(inUse := true)] && parent.inUse == inodes0[p].inUse
    requires FsOk(disk.D(), disk.inodeBlocks + 1, disk.freelistHead, disk.w, disk.inodes[p := parent.Rec()])
    modifies disk`inodes
    ensures TableOk(disk) && FirstInoOk(disk.inodes, disk.firstIno)
    ensures FsOk(disk.D(), disk.inodeBlocks + 1, disk.freelistHead, disk.w, disk.inodes)
    ensures disk.inodes == inodes0[p := parent.Rec()][r := NewInode(isDir)]
  {
    hide FsOk, FirstInoOk;
    ghost var inodes1 := disk.inodes;
    FirstInoKept(inodes1, p, parent.Rec(), disk.firstIno);
    var _ := WriteInode(disk, p, parent);
    ghost var inodes2 := disk.inodes;
    FillRecord(disk.D(), disk.inodeBlocks + 1, disk.freelistHead, disk.w, inodes2, r, isDir);
    FirstInoKept(inodes2, r, NewInode(isDir), disk.firstIno);
    var child := GetInode(disk, r);
    child.links := 1;
    child.isDir := isDir;
    child.blocks := 0;
    child.size := 0;
    child.children := 0;
    var _ := WriteInode(disk, r, child);
    SwapUpdates(inodes0, p, r, inodes1[r], inodes2[p], NewInode(isDir));
  }

  /** Enters the allocated inode `r` as `name` in directory `p`, and fills in its record. */
  method EnterFile(disk: Disk, parent: Inode, p: int, r: int, name: seq<byte>, isDir: bool, ghost dirs: Tree,
                   ghost inodes0: seq<InodeRec>)
    returns (ok: bool)
    requires TableOk(disk) && FirstInoOk(disk.inodes, disk.firstIno) && |disk.inodes| < TWO63
    requires FsOk(disk.D(), disk.inodeBlocks + 1, disk.freelistHead, disk.w, disk.inodes)
    requires FsOk(disk.D(), disk.inodeBlocks + 1, disk.freelistHead, disk.w, inodes0)
    requires NamespaceOk(disk.D(), disk.w, inodes0, dirs) && |inodes0| == |disk.inodes| == |dirs|
    requires 0 <= p < |inodes0| && inodes0[p].isDir && inodes0[p].inUse && parent.Rec() == inodes0[p]
    requires 3 <= r < |inodes0| && !inodes0[r].inUse && disk.inodes == inodes0[r := ZeroInode().(inUse := true)]
    requires LookupIn(Entries(dirs[p]), name) == None && CString(name)
    modifies disk, disk.store, parent
    ensures disk.Sound() && TableOk(disk) && FirstInoOk(disk.inodes, disk.firstIno) && |disk.inodes| == |inodes0|
    ensures ok <==> EntryFits(dirs[p], name, old(NumFree(disk.w.owner)))
    ensures ok ==> NumFree(disk.w.owner) == old(NumFree(disk.w.owner)) - EntryCost(dirs[p], name)
    ensures ok ==>
      && FsOk(disk.D(), disk.inodeBlocks + 1, disk.freelistHead, disk.w, disk.inodes)
      && disk.inodes == inodes0[p := disk.inodes[p]][r := NewInode(isDir)] && disk.inodes[p].isDir
      && DirAttributes(inodes0[p], disk.inodes[p])
      && NamespaceOk(disk.D(), disk.w, disk.inodes, WithFile(dirs, p, name, r))
    ensures !ok ==> disk.inodes == inodes0[r := ZeroInode()]
    ensures |disk.w.files| == |inodes0|
    ensures OthersKept(old(disk.D()), old(disk.w), disk.D(), disk.w, p)
    ensures !ok ==> DirOk(disk.D(), inodes0[p], disk.w.files[p], dirs[p])
  {
    hide WorldOk, FileOk, FsOk, NamespaceOk, OthersKept, DirOk, FirstInoOk, Growth, Added, NumFree, CString,
         LookupIn, Entries, EntryFits, EntryCost, DirAttributes;
    ghost var d0, head0, w0, inodes1, lo := disk.D(), disk.freelistHead, disk.w, disk.inodes, disk.inodeBlocks + 1;
    DirAt(d0, w0, inodes0, dirs, p);
    FsInode(d0, lo, head0, w0, inodes0, p);
    ok := AddDirectoryEntry(disk, parent, r, name, p, dirs[p]);
    if !ok {
      SameDir(d0, w0.files[p], inodes0[p], parent.Rec(), disk.D(), disk.w.files[p], dirs[p]);
      SameCount(d0, w0, disk.D(), disk.w, p);
      UndoCreate(disk, r, d0, head0, w0, p);
      return;
    }
    AttributesKept(inodes0[p], parent.Rec());
    SameCount(d0, w0, disk.D(), disk.w, p);
    UpdateOk(d0, lo, head0, w0, inodes1, disk.D(), disk.freelistHead, disk.w, parent.Rec(), p);
    WriteBoth(disk, parent, p, r, isDir, inodes0);
    CreateNamespace(d0, lo, head0, w0, inodes0, dirs, disk.D(), disk.w, disk.inodes, p, name, r, isDir);
  }

  lemma SameDir(d0: seq<Block>, f0: FileMap, rec0: InodeRec, rec: InodeRec, d: seq<Block>, f: FileMap, dirs: seq<seq<Record>>)
    requires DirOk(d0, rec0, f0, dirs) && DirOk(d, rec, f, dirs)
    ensures DirOk(d, rec0, f, dirs)
  {
  }

  lemma SwapUpdates(inodes: seq<InodeRec>, p: int, r: int, x: InodeRec, a: InodeRec, b: InodeRec)
    requires 0 <= p < |inodes| && 0 <= r < |inodes| && p != r
    ensures inodes[r := x][p := a][r := b] == inodes[p := a][r := b]
  {
  }

  lemma TreeSize(d: seq<Block>, w: World, inodes: seq<InodeRec>, dirs: Tree)
    requires NamespaceOk(d, w, inodes, dirs)
    ensures |dirs| == |inodes|
  {
  }

  /** A file that has been entered is found by exactly the paths that denote it. */
  lemma CreatedDone(d: seq<Block>, w: World, inodes: seq<InodeRec>, dirs: Tree, disk: Disk, path: seq<byte>, isDir: bool, r: int)
    requires NamespaceOk(d, w, inodes, dirs) && |dirs| == |inodes| == |disk.inodes| && ParentIndex(path) >= 0
    requires TableOk(disk) && FirstInoOk(disk.inodes, disk.firstIno)
    requires FsOk(disk.D(), disk.inodeBlocks + 1, disk.freelistHead, disk.w, disk.inodes)
    requires 3 <= r < |inodes| && !inodes[r].inUse && (forall i :: 3 <= i < r ==> inodes[i].inUse)
    requires
      var p, name := NameOf(inodes, dirs, Parent(path)), FileName(path);
      && 0 <= p < |inodes| && p != r && inodes[p].isDir && LookupIn(Entries(dirs[p]), name) == None
      && disk.inodes == inodes[p := disk.inodes[p]][r := NewInode(isDir)] && disk.inodes[p].isDir
      && DirAttributes(inodes[p], disk.inodes[p])
      && NamespaceOk(disk.D(), disk.w, disk.inodes, WithFile(dirs, p, name, r))
    ensures Created(inodes, dirs, disk, path, isDir, r)
  {
    hide WorldOk, FsOk, NamespaceOk, FirstInoOk, ParentIndex, Parent, FileName, NameOf, LookupIn, Entries,
         WithFile, Denotes;
    var p, name := NameOf(inodes, dirs, Parent(path)), FileName(path);
    UnusedUnnamed(d, w, inodes, dirs, r);
    forall q ensures NameOf(disk.inodes, WithFile(dirs, p, name, r), q) ==
      if Denotes(inodes, dirs, q, p, name) then r else NameOf(inodes, dirs, q)
    {
      CreateResolves(inodes, dirs, disk.inodes, p, name, r, q);
    }
  }

  /** A failed entry leaves every directory with the records that it had. */
  lemma FailedNamespace(d: seq<Block>, lo: int, head: int, w: World, inodes: seq<InodeRec>, dirs: Tree,
                        d': seq<Block>, w': World, p: int)
    requires FsOk(d, lo, head, w, inodes) && NamespaceOk(d, w, inodes, dirs) && OthersKept(d, w, d', w', p)
    requires 0 <= p < |inodes| == |dirs| == |w'.files| && DirOk(d', inodes[p], w'.files[p], dirs[p])
    ensures NamespaceOk(d', w', inodes, dirs)
  {
    hide FsOk, DirOk, Entries, UniqueNames, LookupIn;
    forall i | 0 <= i < |inodes| && inodes[i].isDir ensures DirOk(d', inodes[i], w'.files[i], dirs[i]) {
      if i != p {
        FsInode(d, lo, head, w, inodes, i);
        DirKept(d, lo, head, w, inodes[i], i, dirs[i], d', w', p);
      }
    }
    forall i, name | 0 <= i < |inodes| && inodes[i].isDir ensures NamesUsed(inodes, dirs[i], name) {
      assert NamesUsed(inodes, dirs[i], name);
    }
  }

  /** The parent path names a directory, an inode is free, and the entry fits. */
  ghost predicate Creatable(inodes: seq<InodeRec>, dirs: Tree, path: seq<byte>, free: int)
    requires |dirs| == |inodes|
  {
    && ParentIndex(path) >= 0
    && (exists i :: 3 <= i < |inodes| && !inodes[i].inUse)
    && var p := NameOf(inodes, dirs, Parent(path));
       0 <= p < |inodes| && inodes[p].isDir && EntryFits(dirs[p], FileName(path), free)
  }

  /** Creates a file or directory at a path that does not resolve yet. */
  method CreateNewFile(disk: Disk, path: seq<byte>, isDir: bool, ghost dirs: Tree) returns (r: int, p: int)
    requires TableOk(disk) && FirstInoOk(disk.inodes, disk.firstIno) && |disk.inodes| < TWO63
    requires FsOk(disk.D(), disk.inodeBlocks + 1, disk.freelistHead, disk.w, disk.inodes)
    requires NamespaceOk(disk.D(), disk.w, disk.inodes, dirs)
    requires CString(path) && NameOf(disk.inodes, dirs, path) == -1
    modifies disk, disk.store
    ensures disk.Sound() && |disk.inodes| == |old(disk.inodes)| == |dirs|
    ensures r >= 0 ==> ParentIndex(path) >= 0 && Created(old(disk.inodes), dirs, disk, path, isDir, r)
    ensures r >= 0 ==>
      && p == NameOf(old(disk.inodes), dirs, Parent(path)) && 0 <= p < |dirs|
      && NumFree(disk.w.owner) == old(NumFree(disk.w.owner)) - EntryCost(dirs[p], FileName(path))
    ensures r < 0 ==> (r == -ENOENT || r == -EDQUOT) && disk.inodes == old(disk.inodes)
    ensures r >= 0 <==> Creatable(old(disk.inodes), dirs, path, old(NumFree(disk.w.owner)))
    ensures r < 0 ==>
      TableOk(disk) && FirstInoOk(disk.inodes, disk.firstIno) && NamespaceOk(disk.D(), disk.w, disk.inodes, dirs)
    ensures r == -ENOENT ==>
      disk.D() == old(disk.D()) && disk.w == old(disk.w) && disk.freelistHead == old(disk.freelistHead)
    ensures r != -ENOENT ==>
      ParentIndex(path) >= 0
      && OthersKept(old(disk.D()), old(disk.w), disk.D(), disk.w, NameOf(old(disk.inodes), dirs, Parent(path)))
    ensures r == -ENOENT <==>
      ParentIndex(path) < 0
      || var parent := NameOf(old(disk.inodes), dirs, Parent(path));
         parent == -1 || (0 <= parent < |dirs| && !old(disk.inodes)[parent].isDir)
  {
    hide WorldOk, FileOk, FsOk, NamespaceOk, OthersKept, FirstInoOk, ParentIndex, Parent, FileName, NameOf,
         EntryFits, EntryCost, NumFree, CString, Created, LookupIn, Entries, DirOk;
    p := -1;
    ghost var d0, head0, w0, inodes0, lo := disk.D(), disk.freelistHead, disk.w, disk.inodes, disk.inodeBlocks + 1;
    TreeSize(d0, w0, inodes0, dirs);
    FsWorld(d0, lo, head0, w0, inodes0);
    var ok, parentPath := CopyParentPath(path);
    if !ok {
      return -ENOENT, p;
    }
    AbsentName(d0, w0, inodes0, dirs, path);
    p := NameI(disk, parentPath, dirs);
    NamedInUse(d0, w0, inodes0, dirs, Parent(path));
    if p == -1 {
      return -ENOENT, p;
    }
    var parent := GetInode(disk, p);
    if !parent.isDir {
      return -ENOENT, p;
    }
    var name;
    ok, name := CopyFileName(path);
    if !ok {
      return -1, p;
    }
    NameIsCString(path);
    NoChange(d0, lo, head0, w0, p);
    r := AllocateInode(disk);
    if r == -1 {
      return -EDQUOT, p;
    }
    DirAt(d0, w0, inodes0, dirs, r);
    CreateKept(d0, lo, head0, w0, inodes0, r);
    ok := EnterFile(disk, parent, p, r, name, isDir, dirs, inodes0);
    if !ok {
      assert inodes0[r := ZeroInode()] == inodes0;
      FailedNamespace(d0, lo, head0, w0, inodes0, dirs, disk.D(), disk.w, p);
      return -EDQUOT, p;
    }
    CreatedDone(d0, w0, inodes0, dirs, disk, path, isDir, r);
  }

  /** Freeing the blocks of one inode keeps the others. */
  lemma ReclaimedOthers(d: seq<Block>, lo: int, head: int, w: World, rec: InodeRec, d': seq<Block>, w': World, ino: int)
    requires WorldOk(d, lo, head, w) && 0 <= ino < |w.files| && Reclaimed(d, w, rec, d', w', ino)
    ensures OthersKept(d, w, d', w', ino)
  {
    hide Cut, NumFree, FreeListOk, PositionsOk;
  }

  /** Taking `name` out of `parent` and deleting its inode `r` keeps the namespace in order. */
  lemma DeleteNamespace(d: seq<Block>, w: World, inodes: seq<InodeRec>, dirs: Tree,
                        d': seq<Block>, w': World, inodes': seq<InodeRec>, parent: int, name: seq<byte>, r: int)
    requires NamespaceOk(d, w, inodes, dirs) && |w'.files| == |w.files|
    requires 0 <= parent < |inodes| && 3 <= r < |inodes| && r != parent
    requires inodes[parent].isDir && Child(inodes, dirs, parent, name) == r && SoleName(inodes, dirs, r, parent, name)
    requires |inodes'| == |inodes| && inodes' == inodes[r := ZeroInode()][parent := inodes'[parent]]
    requires inodes'[parent].inUse == inodes[parent].inUse && inodes'[parent].isDir
    requires DirOk(d', inodes'[parent], w'.files[parent], Removed(dirs[parent], name))
    requires forall i :: 0 <= i < |inodes| && i != parent && i != r && inodes[i].isDir ==>
      DirOk(d', inodes[i], w'.files[i], dirs[i])
    ensures NamespaceOk(d', w', inodes', WithoutFile(dirs, parent, name, r))
  {
    hide DirOk, Entries, Removed, UniqueNames, LookupIn, Child;
    var dirs' := WithoutFile(dirs, parent, name, r);
    ParentHas(inodes, dirs, parent, name, r);
    RemoveFinds(dirs[parent], name, name);
    forall i, other | 0 <= i < |inodes'| && inodes'[i].isDir ensures NamesUsed(inodes', dirs'[i], other) {
      assert NamesUsed(inodes, dirs[i], other);
      ChildIs(inodes, dirs, i, other);
      if i == parent && other != name {
        RemoveFinds(dirs[parent], name, other);
      }
    }
  }

  lemma ParentHas(inodes: seq<InodeRec>, dirs: Tree, parent: int, name: seq<byte>, r: int)
    requires Child(inodes, dirs, parent, name) == r && r != -1
    ensures 0 <= parent < |inodes| == |dirs| && inodes[parent].isDir && LookupIn(Entries(dirs[parent]), name) == Some(r)
  {
  }

  lemma ChildIs(inodes: seq<InodeRec>, dirs: Tree, i: int, name: seq<byte>)
    requires 0 <= i < |inodes| == |dirs| && inodes[i].isDir
    ensures LookupIn(Entries(dirs[i]), name).Some? ==>
      Child(inodes, dirs, i, name) == LookupIn(Entries(dirs[i]), name).value
  {
  }

  /** What a successful unlink of a file with one name leaves. */
  ghost predicate Deleted(inodes: seq<InodeRec>, dirs: Tree, disk: Disk, path: seq<byte>, r: int)
    requires ParentIndex(path) >= 0 && |dirs| == |inodes|
    reads disk, disk.store
  {
    var parent := NameOf(inodes, dirs, Parent(path));
    && TableOk(disk) && FirstInoOk(disk.inodes, disk.firstIno) && |disk.inodes| == |inodes|
    && FsOk(disk.D(), disk.inodeBlocks + 1, disk.freelistHead, disk.w, disk.inodes)
    && 0 <= parent < |inodes| && 0 <= r < |inodes|
    && disk.inodes == inodes[r := ZeroInode()][parent := inodes[parent].(children := inodes[parent].children - 1)]
    && NamespaceOk(disk.D(), disk.w, disk.inodes, WithoutFile(dirs, parent, FileName(path), r))
    && forall q :: NameOf(disk.inodes, WithoutFile(dirs, parent, FileName(path), r), q) ==
         if Passes(inodes, dirs, q, r) then -1 else NameOf(inodes, dirs, q)
  }

  /** The file at a path can be unlinked: it has a number from 3 on and no other name, and the
      free list is not empty when its blocks are to be freed. */
  ghost predicate Removable(inodes: seq<InodeRec>, dirs: Tree, path: seq<byte>, head: int) {
    var r := NameOf(inodes, dirs, path);
    && ParentIndex(path) >= 0 && 3 <= r < |inodes|
    && r != NameOf(inodes, dirs, Parent(path))
    && SoleName(inodes, dirs, r, NameOf(inodes, dirs, Parent(path)), FileName(path))
    && (inodes[r].blocks > 0 ==> head != 0)
  }

  lemma ParentRecord(d: seq<Block>, lo: int, head: int, w: World, inodes: seq<InodeRec>, p: int, children: int)
    requires FsOk(d, lo, head, w, inodes) && 0 <= p < |inodes|
    ensures FsOk(d, lo, head, w, inodes[p := inodes[p].(children := children)])
  {
    hide WorldOk, Shaped, TreesOk;
  }

  lemma LinksChanged(d: seq<Block>, lo: int, head: int, w: World, inodes: seq<InodeRec>, r: int, links: int)
    requires FsOk(d, lo, head, w, inodes) && 0 <= r < |inodes|
    ensures FsOk(d, lo, head, w, inodes[r := inodes[r].(links := links)])
  {
    hide WorldOk, Shaped, TreesOk;
  }

  /** The directories other than `p` and `r`, after a change to each of these inodes. */
  lemma OtherDirs(d: seq<Block>, lo: int, head: int, w: World, inodes: seq<InodeRec>, dirs: Tree,
                  d1: seq<Block>, head1: int, w1: World, d2: seq<Block>, w2: World, p: int, r: int, i: int)
    requires FsOk(d, lo, head, w, inodes) && NamespaceOk(d, w, inodes, dirs) && FsOk(d1, lo, head1, w1, inodes)
    requires OthersKept(d, w, d1, w1, p) && OthersKept(d1, w1, d2, w2, r)
    requires 0 <= i < |inodes| && i != p && i != r && inodes[i].isDir
    ensures |w2.files| == |inodes| == |dirs| && DirOk(d2, inodes[i], w2.files[i], dirs[i])
  {
    hide WorldOk, FsOk, NamespaceOk, OthersKept, DirOk, FileOk;
    FsInode(d, lo, head, w, inodes, i);
    DirAt(d, w, inodes, dirs, i);
    DirKept(d, lo, head, w, inodes[i], i, dirs[i], d1, w1, p);
    FsInode(d1, lo, head1, w1, inodes, i);
    DirKept(d1, lo, head1, w1, inodes[i], i, dirs[i], d2, w2, r);
  }

  /** Nothing of the inodes other than `p` and `r` has changed: not their trees, and not one block. */
  ghost predicate KeptBut(d: seq<Block>, w: World, d': seq<Block>, w': World, p: int, r: int) {
    && |d'| == |d| && |w'.files| == |w.files|
    && (forall i :: 0 <= i < |w.files| && i != p && i != r ==> w'.files[i] == w.files[i])
    && (forall x :: x in w.owner && w.owner[x].At? && w.owner[x].ino != p && w.owner[x].ino != r ==>
          x in w'.owner && w'.owner[x] == w.owner[x] && 0 <= x < |d| && d'[x] == d[x])
  }

  lemma KeptBoth(d: seq<Block>, w: World, d1: seq<Block>, w1: World, d2: seq<Block>, w2: World, p: int, r: int)
    requires OthersKept(d, w, d1, w1, p) && OthersKept(d1, w1, d2, w2, r)
    ensures KeptBut(d, w, d2, w2, p, r)
  {
  }

  /** So every other file still has its blocks and its bytes. */
  lemma KeptFile(d: seq<Block>, lo: int, head: int, w: World, d': seq<Block>, w': World, p: int, r: int,
                 i: int, rec: InodeRec, c: seq<byte>)
    requires InodeOk(d, lo, head, w, rec, i) && i != p && i != r && KeptBut(d, w, d', w', p, r)
    ensures FileOk(d', rec, w'.files[i])
    ensures HasContent(d, rec, w.files[i], c) ==> HasContent(d', rec, w'.files[i], c)
  {
    hide IsBlock, Shaped, PointersOk;
    TreesFrame(d, d', w, i);
    if HasContent(d, rec, w.files[i], c) {
      forall k | 0 <= k < rec.blocks ensures BlockHolds(d', w'.files[i], k, c) {
        DataOwner(d, lo, head, w, rec, i, k);
        assert BlockHolds(d, w.files[i], k, c);
      }
    }
  }

  /** How many blocks dropping a link of an inode gives back. */
  function GivenBack(rec: InodeRec): int {
    if rec.links == 1 then rec.blocks + IndexBlocks(rec.blocks) else 0
  }

  lemma ReclaimedCount(d: seq<Block>, w: World, rec: InodeRec, d': seq<Block>, w': World, ino: int)
    requires 0 <= ino < |w.files| && Reclaimed(d, w, rec, d', w', ino)
    ensures NumFree(w'.owner) == NumFree(w.owner) + rec.blocks + IndexBlocks(rec.blocks)
  {
    hide Cut, NumFree, IndexBlocks;
  }

  /** Drops one link of inode `r`, and frees it with the last one. */
  method DropLink(disk: Disk, node: Inode, r: int)
    requires TableOk(disk) && FirstInoOk(disk.inodes, disk.firstIno) && 3 <= r < |disk.inodes|
    requires FsOk(disk.D(), disk.inodeBlocks + 1, disk.freelistHead, disk.w, disk.inodes)
    requires node.Rec() == disk.inodes[r] && (node.blocks > 0 ==> disk.freelistHead != 0)
    modifies disk, disk.store, node`links
    ensures TableOk(disk) && FirstInoOk(disk.inodes, disk.firstIno)
    ensures FsOk(disk.D(), disk.inodeBlocks + 1, disk.freelistHead, disk.w, disk.inodes)
    ensures OthersKept(old(disk.D()), old(disk.w), disk.D(), disk.w, r)
    ensures disk.inodes == old(disk.inodes)[r :=
      if old(node.links) == 1 then ZeroInode() else old(node.Rec()).(links := old(node.links) - 1)]
    ensures NumFree(disk.w.owner) == old(NumFree(disk.w.owner)) + GivenBack(old(node.Rec()))
    ensures old(node.links) != 1 ==> disk.D() == old(disk.D()) && disk.w == old(disk.w)
  {
    hide WorldOk, FileOk, FsOk, OthersKept, FirstInoOk, Reclaimed, NumFree, IndexBlocks;
    ghost var d, head, w, inodes, lo := disk.D(), disk.freelistHead, disk.w, disk.inodes, disk.inodeBlocks + 1;
    FsWorld(d, lo, head, w, inodes);
    FsInode(d, lo, head, w, inodes, r);
    node.links := node.links - 1;
    if node.links == 0 {
      var _ := FreeInode(disk, r);
      ReclaimedOthers(d, lo, head, w, inodes[r], disk.D(), disk.w, r);
      ReclaimedCount(d, w, inodes[r], disk.D(), disk.w, r);
    } else {
      NoChange(d, lo, head, w, r);
      LinksChanged(d, lo, head, w, inodes, r, node.links);
      FirstInoKept(inodes, r, node.Rec(), disk.firstIno);
      var _ := WriteInode(disk, r, node);
    }
  }

  /** Takes `name` out of directory `p` and drops one link of its inode `r`. */
  method RemoveFile(disk: Disk, node: Inode, parent: Inode, p: int, r: int, name: seq<byte>, ghost dirs: Tree)
    returns (ok: bool)
    requires TableOk(disk) && FirstInoOk(disk.inodes, disk.firstIno) && node != parent
    requires FsOk(disk.D(), disk.inodeBlocks + 1, disk.freelistHead, disk.w, disk.inodes)
    requires NamespaceOk(disk.D(), disk.w, disk.inodes, dirs) && |dirs| == |disk.inodes|
    requires 0 <= p < |disk.inodes| && 3 <= r < |disk.inodes| && p != r && disk.inodes[p].isDir
    requires node.Rec() == disk.inodes[r] && parent.Rec() == disk.inodes[p]
    requires Child(disk.inodes, dirs, p, name) == r && SoleName(disk.inodes, dirs, r, p, name)
    requires node.blocks > 0 ==> disk.freelistHead != 0
    modifies disk, disk.store, node`links, parent
    ensures ok && TableOk(disk) && FirstInoOk(disk.inodes, disk.firstIno) && |disk.inodes| == |old(disk.inodes)|
    ensures FsOk(disk.D(), disk.inodeBlocks + 1, disk.freelistHead, disk.w, disk.inodes)
    ensures disk.inodes[p] == old(disk.inodes)[p].(children := old(disk.inodes)[p].children - 1)
    ensures disk.inodes == old(disk.inodes)[r :=
      if old(node.links) == 1 then ZeroInode() else old(node.Rec()).(links := old(node.links) - 1)][p := disk.inodes[p]]
    ensures old(node.links) == 1 ==> NamespaceOk(disk.D(), disk.w, disk.inodes, WithoutFile(dirs, p, name, r))
    ensures old(node.links) != 1 ==> NamespaceOk(disk.D(), disk.w, disk.inodes, dirs[p := Removed(dirs[p], name)])
    ensures NumFree(disk.w.owner) == old(NumFree(disk.w.owner)) + GivenBack(old(node.Rec()))
    ensures KeptBut(old(disk.D()), old(disk.w), disk.D(), disk.w, p, r)
    ensures old(node.links) != 1 ==> OthersKept(old(disk.D()), old(disk.w), disk.D(), disk.w, p)
  {
    hide WorldOk, FileOk, FsOk, NamespaceOk, OthersKept, KeptBut, DirOk, FirstInoOk, Removed, LookupIn, Entries,
         Child, SoleName, NumFree, GivenBack;
    ghost var d0, head, w0, inodes0, lo := disk.D(), disk.freelistHead, disk.w, disk.inodes, disk.inodeBlocks + 1;
    DirAt(d0, w0, inodes0, dirs, p);
    FsInode(d0, lo, head, w0, inodes0, p);
    ParentHas(inodes0, dirs, p, name, r);
    ok := RemoveDirectoryEntry(disk, parent, name, p, dirs[p]);
    if !ok {
      return;
    }
    ghost var d1, rec := disk.D(), parent.Rec();
    UpdateOk(d0, lo, head, w0, inodes0, d1, head, w0, rec, p);
    ParentRecord(d1, lo, head, w0, inodes0[p := rec], p, inodes0[p].children);
    assert inodes0[p := rec][p := rec.(children := inodes0[p].children)] == inodes0;
    DropLink(disk, node, r);
    KeptBoth(d0, w0, d1, w0, disk.D(), disk.w, p, r);
    ghost var inodes2 := disk.inodes;
    ParentRecord(disk.D(), lo, disk.freelistHead, disk.w, inodes2, p, rec.children);
    FirstInoKept(inodes2, p, rec, disk.firstIno);
    var _ := WriteInode(disk, p, parent);
    if inodes0[r].links == 1 {
      RemovedDone(d0, lo, head, w0, inodes0, dirs, d1, disk.D(), disk.w, disk.inodes, p, name, r);
    } else {
      EntryRemoved(d0, lo, head, w0, inodes0, dirs, d1, disk.inodes, p, name, r);
    }
  }

  /** Taking out one of several names of an inode takes its entry out of the directory. */
  lemma EntryRemoved(d0: seq<Block>, lo: int, head: int, w: World, inodes: seq<InodeRec>, dirs: Tree,
                     d: seq<Block>, inodes': seq<InodeRec>, p: int, name: seq<byte>, r: int)
    requires FsOk(d0, lo, head, w, inodes) && NamespaceOk(d0, w, inodes, dirs) && OthersKept(d0, w, d, w, p)
    requires 0 <= p < |inodes| == |dirs| && 3 <= r < |inodes| && r != p && |inodes'| == |inodes| == |w.files|
    requires inodes[p].isDir && Child(inodes, dirs, p, name) == r
    requires inodes' == inodes[r := inodes[r].(links := inodes'[r].links)][p := inodes[p].(children := inodes'[p].children)]
    requires DirOk(d, inodes'[p], w.files[p], Removed(dirs[p], name))
    ensures NamespaceOk(d, w, inodes', dirs[p := Removed(dirs[p], name)])
  {
    hide FsOk, DirOk, Entries, Removed, UniqueNames, LookupIn, Child, OthersKept;
    var dirs' := dirs[p := Removed(dirs[p], name)];
    ParentHas(inodes, dirs, p, name, r);
    RemoveFinds(dirs[p], name, name);
    assert NamesUsed(inodes, dirs[p], name);
    forall i | 0 <= i < |inodes| && inodes[i].isDir && i != p ensures DirOk(d, inodes'[i], w.files[i], dirs[i]) {
      FsInode(d0, lo, head, w, inodes, i);
      DirKept(d0, lo, head, w, inodes[i], i, dirs[i], d, w, p);
      LinksApart(d, inodes[i], w.files[i], dirs[i], inodes'[i].links);
    }
    forall i, other | 0 <= i < |inodes| && inodes[i].isDir ensures NamesUsed(inodes', dirs'[i], other) {
      assert NamesUsed(inodes, dirs[i], other);
      if i == p && other != name {
        RemoveFinds(dirs[p], name, other);
      }
    }
  }

  lemma LinksApart(d: seq<Block>, rec: InodeRec, f: FileMap, dir: seq<seq<Record>>, links: int)
    requires DirOk(d, rec, f, dir)
    ensures DirOk(d, rec.(links := links), f, dir)
  {
  }

  lemma RemovedDone(d0: seq<Block>, lo: int, head: int, w0: World, inodes: seq<InodeRec>, dirs: Tree,
                    d1: seq<Block>, d2: seq<Block>, w2: World, inodes': seq<InodeRec>, p: int, name: seq<byte>, r: int)
    requires FsOk(d0, lo, head, w0, inodes) && NamespaceOk(d0, w0, inodes, dirs) && FsOk(d1, lo, head, w0, inodes)
    requires OthersKept(d0, w0, d1, w0, p) && OthersKept(d1, w0, d2, w2, r)
    requires 0 <= p < |inodes| && 3 <= r < |inodes| && r != p && |dirs| == |inodes|
    requires inodes[p].isDir && Child(inodes, dirs, p, name) == r && SoleName(inodes, dirs, r, p, name)
    requires |inodes'| == |inodes| && inodes' == inodes[r := ZeroInode()][p := inodes'[p]]
    requires inodes'[p] == inodes[p].(children := inodes'[p].children)
    requires |w0.files| == |inodes| && DirOk(d1, inodes'[p], w0.files[p], Removed(dirs[p], name))
    ensures NamespaceOk(d2, w2, inodes', WithoutFile(dirs, p, name, r))
  {
    hide WorldOk, FsOk, NamespaceOk, OthersKept, DirOk, FileOk, Removed, LookupIn, Entries, Child, SoleName;
    SameCount(d1, w0, d2, w2, r);
    ParentRecord(d1, lo, head, w0, inodes, p, inodes'[p].children);
    FsInode(d1, lo, head, w0, inodes[p := inodes'[p]], p);
    DirKept(d1, lo, head, w0, inodes'[p], p, Removed(dirs[p], name), d2, w2, r);
    forall i | 0 <= i < |inodes| && i != p && i != r && inodes[i].isDir
      ensures DirOk(d2, inodes[i], w2.files[i], dirs[i])
    {
      OtherDirs(d0, lo, head, w0, inodes, dirs, d1, head, w0, d2, w2, p, r, i);
    }
    DeleteNamespace(d0, w0, inodes, dirs, d2, w2, inodes', p, name, r);
  }

  lemma RemovableFacts(d: seq<Block>, w: World, inodes: seq<InodeRec>, dirs: Tree, path: seq<byte>)
    requires NamespaceOk(d, w, inodes, dirs)
    requires NameOf(inodes, dirs, path) != -1 && NameOf(inodes, dirs, path) != ROOT_INODE_NUM
    ensures ParentIndex(path) >= 0
    ensures
      var p := NameOf(inodes, dirs, Parent(path));
      && 0 <= p < |inodes| && inodes[p].isDir
      && Child(inodes, dirs, p, FileName(path)) == NameOf(inodes, dirs, path)
  {
    hide DirOk, Entries, UniqueNames;
  }

  lemma UniqueAt(d: seq<Block>, w: World, inodes: seq<InodeRec>, dirs: Tree, p: int)
    requires NamespaceOk(d, w, inodes, dirs) && 0 <= p < |inodes| && inodes[p].isDir
    ensures UniqueNames(Entries(dirs[p]))
  {
  }

  /** An unlinked file is gone for exactly the paths through it. */
  lemma DeletedDone(d: seq<Block>, w: World, inodes: seq<InodeRec>, dirs: Tree, disk: Disk, path: seq<byte>, r: int)
    requires NamespaceOk(d, w, inodes, dirs) && |dirs| == |inodes| == |disk.inodes| && ParentIndex(path) >= 0
    requires TableOk(disk) && FirstInoOk(disk.inodes, disk.firstIno)
    requires FsOk(disk.D(), disk.inodeBlocks + 1, disk.freelistHead, disk.w, disk.inodes)
    requires
      var p, name := NameOf(inodes, dirs, Parent(path)), FileName(path);
      && 0 <= p < |inodes| && 3 <= r < |inodes| && p != r && inodes[p].isDir && disk.inodes[p].isDir
      && Child(inodes, dirs, p, name) == r && SoleName(inodes, dirs, r, p, name)
      && disk.inodes == inodes[r := ZeroInode()][p := inodes[p].(children := inodes[p].children - 1)]
      && NamespaceOk(disk.D(), disk.w, disk.inodes, WithoutFile(dirs, p, name, r))
    ensures Deleted(inodes, dirs, disk, path, r)
  {
    hide WorldOk, FsOk, NamespaceOk, FirstInoOk, ParentIndex, Parent, FileName, NameOf, LookupIn, Entries, WithoutFile,
         Passes, Child, UniqueNames, DirOk, SoleName;
    var p, name := NameOf(inodes, dirs, Parent(path)), FileName(path);
    ParentHas(inodes, dirs, p, name, r);
    UniqueAt(d, w, inodes, dirs, p);
    forall q ensures NameOf(disk.inodes, WithoutFile(dirs, p, name, r), q) ==
      if Passes(inodes, dirs, q, r) then -1 else NameOf(inodes, dirs, q)
    {
      DeleteResolves(inodes, dirs, disk.inodes, p, name, r, q);
    }
  }

  /** Inode `n` is a directory with more than its own two entries. */
  ghost predicate Occupied(inodes: seq<InodeRec>, dirs: Tree, n: int) {
    n != ROOT_INODE_NUM && 0 <= n < |inodes| == |dirs| && inodes[n].isDir && |Entries(dirs[n])| > 2
  }

  /** What taking out one of several names of inode `r` leaves. */
  ghost predicate LinkDropped(inodes: seq<InodeRec>, dirs: Tree, disk: Disk, path: seq<byte>, r: int)
    requires ParentIndex(path) >= 0 && |dirs| == |inodes|
    reads disk, disk.store
  {
    var p := NameOf(inodes, dirs, Parent(path));
    && TableOk(disk) && FirstInoOk(disk.inodes, disk.firstIno)
    && FsOk(disk.D(), disk.inodeBlocks + 1, disk.freelistHead, disk.w, disk.inodes)
    && 0 <= p < |inodes| && 0 <= r < |inodes|
    && disk.inodes == inodes[r := inodes[r].(links := inodes[r].links - 1)]
                            [p := inodes[p].(children := inodes[p].children - 1)]
    && NamespaceOk(disk.D(), disk.w, disk.inodes, dirs[p := Removed(dirs[p], FileName(path))])
  }

  /** What unlinking the file `r` at a path leaves: other files are kept, the blocks of `r` are
      given back, and if it had one link it is gone. */
  ghost predicate Unlinked(d0: seq<Block>, w0: World, inodes0: seq<InodeRec>, dirs: Tree, disk: Disk, path: seq<byte>, r: int)
    reads disk, disk.store
  {
    && ParentIndex(path) >= 0 && 0 <= r < |inodes0| == |dirs|
    && KeptBut(d0, w0, disk.D(), disk.w, NameOf(inodes0, dirs, Parent(path)), r)
    && NumFree(disk.w.owner) == NumFree(w0.owner) + GivenBack(inodes0[r])
    && (inodes0[r].links == 1 ==> Deleted(inodes0, dirs, disk, path, r))
    && (inodes0[r].links != 1 ==>
          && LinkDropped(inodes0, dirs, disk, path, r)
          && OthersKept(d0, w0, disk.D(), disk.w, NameOf(inodes0, dirs, Parent(path))))
  }

  /** Unlinks the file or empty directory at a path. */
  method Unlink(disk: Disk, path: seq<byte>, ghost dirs: Tree) returns (r: int)
    requires TableOk(disk) && FirstInoOk(disk.inodes, disk.firstIno)
    requires FsOk(disk.D(), disk.inodeBlocks + 1, disk.freelistHead, disk.w, disk.inodes)
    requires NamespaceOk(disk.D(), disk.w, disk.inodes, dirs)
    requires
      var n := NameOf(disk.inodes, dirs, path);
      n == -1 || n == ROOT_INODE_NUM || Occupied(disk.inodes, dirs, n)
      || Removable(disk.inodes, dirs, path, disk.freelistHead)
    modifies disk, disk.store
    ensures |disk.inodes| == |old(disk.inodes)| == |dirs|
    ensures r == -ENOENT <==> NameOf(old(disk.inodes), dirs, path) == -1
    ensures r == -EACCES <==> NameOf(old(disk.inodes), dirs, path) == ROOT_INODE_NUM
    ensures r == -ENOTEMPTY <==> Occupied(old(disk.inodes), dirs, NameOf(old(disk.inodes), dirs, path))
    ensures r == 0 || r == -ENOENT || r == -EACCES || r == -ENOTEMPTY
    ensures r != 0 ==>
      && disk.D() == old(disk.D()) && disk.inodes == old(disk.inodes) && disk.w == old(disk.w)
      && disk.freelistHead == old(disk.freelistHead) && disk.firstIno == old(disk.firstIno)
    ensures r == 0 ==>
      Unlinked(old(disk.D()), old(disk.w), old(disk.inodes), dirs, disk, path, NameOf(old(disk.inodes), dirs, path))
  {
    hide NumFree, GivenBack, KeptBut, WorldOk, FileOk, FsOk, NamespaceOk, FirstInoOk, ParentIndex, Parent,
         FileName, NameOf, LookupIn, Entries, Deleted, Child, SoleName, UniqueNames, DirBlocks;
    ghost var d0, head0, w0, inodes0, lo := disk.D(), disk.freelistHead, disk.w, disk.inodes, disk.inodeBlocks + 1;
    TreeSize(d0, w0, inodes0, dirs);
    NamedInUse(d0, w0, inodes0, dirs, path);
    var inum := NameI(disk, path, dirs);
    if inum == -1 {
      return -ENOENT;
    }
    if inum == ROOT_INODE_NUM {
      return -EACCES;
    }
    RemovableFacts(d0, w0, inodes0, dirs, path);
    var ok, name, parentPath;
    ok, name := CopyFileName(path);
    if !ok {
      return -1;
    }
    ok, parentPath := CopyParentPath(path);
    if !ok {
      return -EINVAL;
    }
    var node := GetInode(disk, inum);
    DirAt(d0, w0, inodes0, dirs, inum);
    if node.isDir {
      var empty := IsEmptyDir(node, d0, w0.files[inum], dirs[inum]);
      if !empty {
        return -ENOTEMPTY;
      }
    }
    var p := NameI(disk, parentPath, dirs);
    if p == -1 {
      return -1;
    }
    var parent := GetInode(disk, p);
    ok := RemoveFile(disk, node, parent, p, inum, name, dirs);
    if !ok {
      return -1;
    }
    if inodes0[inum].links == 1 {
      DeletedDone(d0, w0, inodes0, dirs, disk, path, inum);
    }
    return 0;
  }

  /** The new file has no other name, so it can be unlinked again. */
  lemma NewSoleName(inodes: seq<InodeRec>, dirs: Tree, inodes': seq<InodeRec>, parent: int, name: seq<byte>, r: int)
    requires |dirs| == |inodes| == |inodes'| && 0 <= parent < |inodes| && 0 <= r < |inodes| && r != parent
    requires inodes[parent].isDir && LookupIn(Entries(dirs[parent]), name) == None && Unnamed(inodes, dirs, r)
    requires forall j :: 0 <= j < |inodes| && j != r ==> inodes'[j].isDir == inodes[j].isDir
    ensures SoleName(inodes', WithFile(dirs, parent, name, r), r, parent, name)
    ensures Child(inodes', WithFile(dirs, parent, name, r), parent, name) == r
  {
    hide Child, WithFile, LookupIn, Entries;
    ChildAfterCreate(inodes, dirs, inodes', parent, name, r, parent, name);
    forall i, other | i != r && Child(inodes', WithFile(dirs, parent, name, r), i, other) == r
      ensures i == parent && other == name
    {
      ChildAfterCreate(inodes, dirs, inodes', parent, name, r, i, other);
    }
  }

  /** Unlinking a file right after creating it gives every path back what it resolved to. */
  lemma {:induction false} CreateUndone(inodes: seq<InodeRec>, dirs: Tree, inodes': seq<InodeRec>, parent: int,
                                        name: seq<byte>, r: int, q: seq<byte>)
    requires |dirs| == |inodes| == |inodes'| && 0 <= parent < |inodes| && 0 <= r < |inodes| && r != parent
    requires inodes[parent].isDir && LookupIn(Entries(dirs[parent]), name) == None
    requires forall j :: 0 <= j < |inodes| && j != r ==> inodes'[j].isDir == inodes[j].isDir
    requires Unnamed(inodes, dirs, r) && r != ROOT_INODE_NUM
    ensures
      var dirs' := WithFile(dirs, parent, name, r);
      (if Passes(inodes', dirs', q, r) then -1 else NameOf(inodes', dirs', q)) == NameOf(inodes, dirs, q)
    decreases |q|
  {
    hide Child, WithFile, ParentIndex, Parent, FileName, LookupIn, Entries;
    CreateResolves(inodes, dirs, inodes', parent, name, r, q);
    AbsentChild(inodes, dirs, parent, name);
    if q != [SLASH] && ParentIndex(q) >= 0 {
      ParentShorter(q);
      CreateUndone(inodes, dirs, inodes', parent, name, r, Parent(q));
      CreateResolves(inodes, dirs, inodes', parent, name, r, Parent(q));
    }
  }

  const DOT: seq<byte> := [46]
  const DOT_DOT: seq<byte> := [46, 46]

  /** The two first entries of a directory: one for itself, one for its parent. */
  function DotEntries(ino: int, parent: int): seq<Record> {
    [Record(ino, DOT), Record(parent, DOT_DOT)]
  }

  /** In the root directory both are for itself. */
  function RootEntries(): seq<Record> {
    DotEntries(ROOT_INODE_NUM, ROOT_INODE_NUM)
  }

  /** The directories of a file system with nothing but the root. */
  function RootTree(n: nat): (t: Tree)
    ensures |t| == n
  {
    seq(n, i => if i == ROOT_INODE_NUM then [RootEntries()] else [])
  }

  lemma DotsAdded(ino: int, parent: int)
    ensures
      var rs := DotEntries(ino, parent);
      && rs == [Record(ino, [46]), Record(parent, [46, 46])]
      && Added(Added([], rs[0]), rs[1]) == [rs]
      && RoomIn(Added([], rs[0]), Size(rs[1])) < |Added([], rs[0])|
      && RoomIn([], Size(rs[0])) == 0 && Entries([]) == []
      && Entries([rs]) == rs && UniqueNames(rs)
  {
    hide Encode;
    var a, b := DotEntries(ino, parent)[0], DotEntries(ino, parent)[1];
    assert Added([], a) == [[a]];
    PackOne(a);
    assert Room([a], Size(b));
    assert [a] + [b] == DotEntries(ino, parent);
    EntriesOne(DotEntries(ino, parent));
  }

  lemma RootNames(n: nat, inodes: seq<InodeRec>, name: seq<byte>)
    requires |inodes| > ROOT_INODE_NUM && inodes[ROOT_INODE_NUM].inUse
    ensures NamesUsed(inodes, [RootEntries()], name)
  {
    DotsAdded(ROOT_INODE_NUM, ROOT_INODE_NUM);
    var i := Find(RootEntries(), name);
  }

  /** The root directory is in place and resolves; nothing else exists. */
  lemma RootNamespace(d: seq<Block>, lo: int, head: int, w: World, inodes: seq<InodeRec>)
    requires FsOk(d, lo, head, w, inodes) && |inodes| > ROOT_INODE_NUM
    requires inodes[ROOT_INODE_NUM].inUse && inodes[ROOT_INODE_NUM].isDir
    requires DirOk(d, inodes[ROOT_INODE_NUM], w.files[ROOT_INODE_NUM], [RootEntries()])
    requires forall i :: 0 <= i < |inodes| && i != ROOT_INODE_NUM ==> inodes[i] == ZeroInode()
    ensures NamespaceOk(d, w, inodes, RootTree(|inodes|))
  {
    hide WorldOk, FileOk, DirOk, Entries, UniqueNames;
    DotsAdded(ROOT_INODE_NUM, ROOT_INODE_NUM);
    var dirs := RootTree(|inodes|);
    forall i, name | 0 <= i < |inodes| && inodes[i].isDir ensures NamesUsed(inodes, dirs[i], name) {
      RootNames(|inodes|, inodes, name);
    }
  }

  /** Whether the root directory has already been made. */
  predicate RootExists(inodes: seq<InodeRec>) {
    |inodes| > ROOT_INODE_NUM && inodes[ROOT_INODE_NUM].inUse && inodes[ROOT_INODE_NUM].children >= 2
  }

  /** Makes the root directory of a file system that has just been formatted. */
  method SetupFilesystem(disk: Disk) returns (ok: bool)
    requires TableOk(disk) && FirstInoOk(disk.inodes, disk.firstIno) && |disk.inodes| > ROOT_INODE_NUM
    requires FsOk(disk.D(), disk.inodeBlocks + 1, disk.freelistHead, disk.w, disk.inodes)
    requires RootExists(disk.inodes) || forall i :: 0 <= i < |disk.inodes| ==> disk.inodes[i] == ZeroInode()
    modifies disk, disk.store
    ensures disk.Sound() && TableOk(disk) && |disk.inodes| == |old(disk.inodes)|
    ensures ok <==> RootExists(old(disk.inodes)) || old(NumFree(disk.w.owner)) > 0
    ensures ok ==>
      && FsOk(disk.D(), disk.inodeBlocks + 1, disk.freelistHead, disk.w, disk.inodes)
      && FirstInoOk(disk.inodes, disk.firstIno)
    ensures RootExists(old(disk.inodes)) || !ok ==>
      && disk.D() == old(disk.D()) && disk.inodes == old(disk.inodes) && disk.w == old(disk.w)
      && disk.freelistHead == old(disk.freelistHead) && disk.firstIno == old(disk.firstIno)
    ensures ok && !RootExists(old(disk.inodes)) ==>
      && NumFree(disk.w.owner) == old(NumFree(disk.w.owner)) - 1
      && NamespaceOk(disk.D(), disk.w, disk.inodes, RootTree(|disk.inodes|)) && disk.inodes[ROOT_INODE_NUM].isDir
      && forall i :: 0 <= i < |disk.inodes| && i != ROOT_INODE_NUM ==> disk.inodes[i] == ZeroInode()
  {
    hide WorldOk, FileOk, FsOk, NamespaceOk, OthersKept, DirOk, Added, NumFree, Growth, Entries, RoomIn, DirAttributes;
    ghost var d0, head0, w0, inodes0, lo := disk.D(), disk.freelistHead, disk.w, disk.inodes, disk.inodeBlocks + 1;
    var root := GetInode(disk, ROOT_INODE_NUM);
    FsWorld(d0, lo, head0, w0, inodes0);
    if root.inUse && root.children >= 2 {
      return true;
    }
    root.inUse := true;
    root.links := root.links + 1;
    root.isDir := true;
    root.blocks := 0;
    root.size := 0;
    root.children := 0;
    RootRecord(d0, lo, head0, w0, inodes0);
    DotsAdded(ROOT_INODE_NUM, ROOT_INODE_NUM);
    FreshDir(d0, w0.files[ROOT_INODE_NUM], root.Rec());
    ghost var rec := root.Rec();
    ok := FillDir(disk, root, ROOT_INODE_NUM, ROOT_INODE_NUM);
    AttributesKept(rec, root.Rec());
    if !ok {
      return;
    }
    UpdateOk(d0, lo, head0, w0, inodes0, disk.D(), disk.freelistHead, disk.w, root.Rec(), ROOT_INODE_NUM);
    ok := WriteInode(disk, ROOT_INODE_NUM, root);
    RootNamespace(disk.D(), lo, disk.freelistHead, disk.w, disk.inodes);
    RootFirst(inodes0, root.Rec(), disk.firstIno);
  }

  lemma RootFirst(inodes: seq<InodeRec>, rec: InodeRec, first: int)
    requires FirstInoOk(inodes, first) && |inodes| > ROOT_INODE_NUM
    ensures FirstInoOk(inodes[ROOT_INODE_NUM := rec], first)
  {
  }

  /** Adds the entries "." and ".." to an empty directory. */
  method FillDir(disk: Disk, node: Inode, ino: int, parent: int) returns (ok: bool)
    requires InodeOk(disk.D(), disk.inodeBlocks + 1, disk.freelistHead, disk.w, node.Rec(), ino)
    requires node.isDir && DirOk(disk.D(), node.Rec(), disk.w.files[ino], [])
    requires 0 <= ino < TWO63 && 0 <= parent < TWO63
    modifies disk`freelistHead, disk`w, disk.store, node
    ensures disk.Sound() && OthersKept(old(disk.D()), old(disk.w), disk.D(), disk.w, ino)
    ensures ok <==> old(NumFree(disk.w.owner)) > 0
    ensures ok ==> NumFree(disk.w.owner) == old(NumFree(disk.w.owner)) - 1
    ensures !ok ==>
      disk.D() == old(disk.D()) && disk.w == old(disk.w) && disk.freelistHead == old(disk.freelistHead)
      && node.Rec() == old(node.Rec())
    ensures DirAttributes(old(node.Rec()), node.Rec())
    ensures ok ==>
      && InodeOk(disk.D(), disk.inodeBlocks + 1, disk.freelistHead, disk.w, node.Rec(), ino)
      && DirOk(disk.D(), node.Rec(), disk.w.files[ino], [DotEntries(ino, parent)])
  {
    hide WorldOk, FileOk, OthersKept, DirOk, Added, NumFree, Growth, Entries, RoomIn, CString, UniqueNames;
    ghost var d0, head0, w0, lo := disk.D(), disk.freelistHead, disk.w, disk.inodeBlocks + 1;
    NoGrowth();
    DotsAdded(ino, parent);
    DotNames();
    ok := AddDirectoryEntry(disk, node, ino, DOT, ino, []);
    if !ok {
      return;
    }
    ghost var d1, head1, w1 := disk.D(), disk.freelistHead, disk.w;
    ok := AddDirectoryEntry(disk, node, parent, DOT_DOT, ino, Added([], DotEntries(ino, parent)[0]));
    KeptTwice(d0, lo, head0, w0, d1, head1, w1, disk.D(), disk.w, ino);
  }

  lemma DotNames()
    ensures CString(DOT) && CString(DOT_DOT)
  {
  }

  lemma NoGrowth()
    ensures Growth(0) == 0
  {
    hide IndexBlocks;
    IndexBlocksClosed(0);
    IndexBlocksClosed(1);
  }

  lemma RootRecord(d: seq<Block>, lo: int, head: int, w: World, inodes: seq<InodeRec>)
    requires FsOk(d, lo, head, w, inodes) && |inodes| > ROOT_INODE_NUM && inodes[ROOT_INODE_NUM] == ZeroInode()
    ensures InodeOk(d, lo, head, w, NewInode(true), ROOT_INODE_NUM) && |w.files| == |inodes|
  {
    hide WorldOk, Shaped, TreesOk;
  }

  lemma KeptTwice(d0: seq<Block>, lo: int, head0: int, w0: World, d1: seq<Block>, head1: int, w1: World,
                  d2: seq<Block>, w2: World, ino: int)
    requires WorldOk(d0, lo, head0, w0) && OthersKept(d0, w0, d1, w1, ino) && OthersKept(d1, w1, d2, w2, ino)
    ensures OthersKept(d0, w0, d2, w2, ino)
  {
    hide FreeListOk, PositionsOk;
  }
}
