/** The calls by path, and sessions of them, against the model of the file system. */
module Sessions {
  import opened Blocks
  import opened Ownership
  import opened BlockMap
  import opened Disk
  import opened Superblock
  import opened Inodes
  import opened Content
  import opened Files
  import opened Writes
  import opened Truncates
  import opened Records
  import opened Listings
  import opened Directory
  import opened Paths
  import opened Namespace
  import opened Trees
  import opened Changes
  import opened Models

  lemma {:induction false} PathCString(names: seq<seq<byte>>)
    requires Plain(names)
    ensures CString(PathOf(names)) && CString(Joined(names))
  {
    hide Component, Proper;
    if names != [] {
      PathCString(names[1..]);
    }
  }

  /** What is seen at a path, by its inode. */
  lemma LookIs(disk: Disk, dirs: Tree, contents: seq<seq<byte>>, names: seq<seq<byte>>)
    requires InOrder(disk, dirs, contents)
    ensures |contents| == |disk.inodes| == |dirs| == |disk.w.files|
    ensures
      var i, v := NameOf(disk.inodes, dirs, PathOf(names)), Look(disk.inodes, dirs, contents, names);
      && i == InodeAt(disk.inodes, dirs, names)
      && (i == -1 <==> v == Absent)
      && (i != -1 ==> 0 <= i < |disk.inodes| && disk.inodes[i].inUse)
      && (i != -1 && disk.inodes[i].isDir <==> v == Dir)
      && (v.File? ==>
            && v.bytes == contents[i]
            && HasContent(disk.D(), disk.inodes[i], disk.w.files[i], contents[i])
            && disk.inodes[i].blocks == BlocksFor(|v.bytes|))
  {
    hide FsOk, NamespaceOk, TreeOk, FilesOk, NameOf, PathOf, InodeAt;
    StateParts(disk.D(), disk.inodeBlocks + 1, disk.freelistHead, disk.w, disk.inodes, dirs, contents);
    NamedInUse(disk.D(), disk.w, disk.inodes, dirs, PathOf(names));
    AtIs(disk.inodes, dirs, names);
    var i := InodeAt(disk.inodes, dirs, names);
    if 0 <= i < |disk.inodes| {
      FileAt(disk.D(), disk.w, disk.inodes, contents, i);
    }
  }

  lemma OrderParts(disk: Disk, dirs: Tree, contents: seq<seq<byte>>)
    requires InOrder(disk, dirs, contents)
    ensures TableOk(disk) && FirstInoOk(disk.inodes, disk.firstIno) && |disk.inodes| < TWO63
    ensures FsOk(disk.D(), disk.inodeBlocks + 1, disk.freelistHead, disk.w, disk.inodes)
    ensures NamespaceOk(disk.D(), disk.w, disk.inodes, dirs)
    ensures StateOk(disk.D(), disk.inodeBlocks + 1, disk.freelistHead, disk.w, disk.inodes, dirs, contents)
    ensures |dirs| == |disk.inodes| == |contents| == |disk.w.files|
  {
    hide FsOk, NamespaceOk, TreeOk, FilesOk;
    StateParts(disk.D(), disk.inodeBlocks + 1, disk.freelistHead, disk.w, disk.inodes, dirs, contents);
  }

  ghost function Now(disk: Disk, dirs: Tree, contents: seq<seq<byte>>): Model
    reads disk, disk.store
  {
    ModelOf(disk.inodes, dirs, contents, NumFree(disk.w.owner))
  }

  /** The model shows what the inode table and the directories on the disk show. */
  lemma ModelIs(disk: Disk, dirs: Tree, contents: seq<seq<byte>>, names: seq<seq<byte>>)
    requires InOrder(disk, dirs, contents)
    ensures
      var m := Now(disk, dirs, contents);
      var i := InodeAt(m.inodes, m.dirs, names);
      && i == NameOf(disk.inodes, dirs, PathOf(names)) == InodeAt(disk.inodes, dirs, names)
      && (i != -1 ==> 0 <= i < |disk.inodes|)
      && See(m)(names) == Look(disk.inodes, dirs, contents, names)
      && (i == -1 <==> See(m)(names) == Absent)
      && (i != -1 && disk.inodes[i].isDir <==> See(m)(names) == Dir)
      && |m.inodes| == |m.dirs| == |m.contents| == |disk.inodes|
      && (i != -1 ==>
            && 0 <= i < |m.inodes| && m.inodes[i].isDir == disk.inodes[i].isDir && m.inodes[i].inUse
            && BlocksAt(m, i) == disk.inodes[i].blocks
            && (Occupied(m.inodes, m.dirs, i) <==> Occupied(disk.inodes, dirs, i)))
      && 0 <= m.free && (disk.freelistHead == 0 <==> m.free == 0)
  {
    hide FsOk, NamespaceOk, TreeOk, FilesOk, NameOf, PathOf, InodeAt, NumFree, Occupied, Look, WorldOk;
    OrderParts(disk, dirs, contents);
    LookIs(disk, dirs, contents, names);
    SameShapes(disk.inodes, dirs, contents, names);
    FsWorld(disk.D(), disk.inodeBlocks + 1, disk.freelistHead, disk.w, disk.inodes);
    HeadOf(disk.D(), disk.inodeBlocks + 1, disk.freelistHead, disk.w);
    var i := InodeAt(disk.inodes, dirs, names);
    SameOccupied(disk.inodes, dirs, i);
    if i != -1 {
      BlocksAre(disk.D(), disk.inodeBlocks + 1, disk.freelistHead, disk.w, disk.inodes, dirs, contents, i);
    }
  }

  lemma BlocksAre(d: seq<Block>, lo: int, head: int, w: World, inodes: seq<InodeRec>, dirs: Tree, contents: seq<seq<byte>>, i: int)
    requires StateOk(d, lo, head, w, inodes, dirs, contents) && 0 <= i < |inodes|
    ensures |dirs| == |contents| == |inodes|
    ensures inodes[i].blocks == if inodes[i].isDir then |dirs[i]| else BlocksFor(|contents[i]|)
  {
    hide FsOk, TreeOk, Entries, BlocksFor, UniqueNames;
    FileAt(d, w, inodes, contents, i);
    DirAt(d, w, inodes, dirs, i);
  }

  /** What is seen in the model is what is seen on the disk. */
  lemma SeeIs(disk: Disk, dirs: Tree, contents: seq<seq<byte>>, q: seq<seq<byte>>)
    ensures See(Now(disk, dirs, contents))(q) == Look(disk.inodes, dirs, contents, q)
  {
    hide Look, NumFree;
    SameShapes(disk.inodes, dirs, contents, q);
  }

  /** Reads from the file at a path. */
  method ReadPath(disk: Disk, path: seq<byte>, n: nat, off: int, ghost names: seq<seq<byte>>, ghost dirs: Tree,
                  ghost contents: seq<seq<byte>>)
    returns (r: int, buff: seq<byte>)
    requires InOrder(disk, dirs, contents) && path == PathOf(names)
    requires See(Now(disk, dirs, contents))(names) != Dir
    ensures r <= 0 ==> buff == []
    ensures n == 0 ==> r == 0
    ensures n > 0 && off < 0 ==> r == -EINVAL
    ensures n > 0 && 0 <= off ==>
      match See(Now(disk, dirs, contents))(names)
      case Absent => r == -ENOENT
      case Dir => true
      case File(c) =>
        && (c == [] ==> r == 0)
        && (0 < |c| <= off ==> r == -EOVERFLOW)
        && (off < |c| ==>
              r == (if off + n <= |c| then n else |c| - off) && |buff| == r && buff == c[off..off + r])
  {
    hide InOrder, StateOk, FsOk, NamespaceOk, HasContent, NameOf, InodeAt, Look, PathOf, Now, See;
    OrderParts(disk, dirs, contents);
    ModelIs(disk, dirs, contents, names);
    LookIs(disk, dirs, contents, names);
    buff := [];
    if n == 0 {
      return 0, [];
    }
    if off < 0 {
      return -EINVAL, [];
    }
    var inum := NameI(disk, path, dirs);
    if inum == -1 {
      return -ENOENT, [];
    }
    r, buff := Read(disk, inum, n, off, contents[inum]);
  }

  /** New content of a file, in the model. */
  lemma RewrittenModel(inodes0: seq<InodeRec>, dirs: Tree, contents: seq<seq<byte>>, free0: int, inodes: seq<InodeRec>,
                       free: int, i: int, c: seq<byte>)
    requires 0 <= i < |inodes0| == |inodes| == |contents| && inodes == inodes0[i := inodes[i]]
    requires inodes[i].inUse == inodes0[i].inUse && inodes[i].isDir == inodes0[i].isDir
    requires free == free0 - Cost(BlocksFor(|contents[i]|), BlocksFor(|c|))
    ensures ModelOf(inodes, dirs, contents[i := c], free) == Rewritten(ModelOf(inodes0, dirs, contents, free0), i, c)
  {
    hide Cost, BlocksFor;
    assert Shapes(inodes) == Shapes(inodes0);
  }

  /** Writes to the file at a path. */
  method WritePath(disk: Disk, path: seq<byte>, data: seq<byte>, off: int, ghost names: seq<seq<byte>>, ghost dirs: Tree,
                   ghost contents: seq<seq<byte>>)
    returns (r: int, ghost contents': seq<seq<byte>>)
    requires InOrder(disk, dirs, contents) && Plain(names) && path == PathOf(names)
    requires See(Now(disk, dirs, contents))(names) != Dir
    modifies disk`freelistHead, disk`w, disk`inodes, disk.store
    ensures data == [] ==> r == 0
    ensures data != [] && off < 0 ==> r == -EINVAL
    ensures data != [] && 0 <= off ==>
      (r == -ENOENT <==> See(old(Now(disk, dirs, contents)))(names) == Absent)
    ensures data == [] || off < 0 || r == -ENOENT ==>
      InOrder(disk, dirs, contents') && contents' == contents && Now(disk, dirs, contents) == old(Now(disk, dirs, contents))
    ensures data != [] && 0 <= off && r != -ENOENT ==>
      var m := old(Now(disk, dirs, contents));
      var c := See(m)(names).bytes;
      && (r == |data| <==> Fits(BlocksFor(|c|), off, |data|, m.free))
      && (r == |data| ==>
            && InOrder(disk, dirs, contents') && Now(disk, dirs, contents') == Next(m, Put(names, data, off))
            && Becomes(old(disk.inodes), dirs, contents, disk.inodes, dirs, contents', names, File(Overlay(c, off, data))))
      && (r != |data| ==>
            && 0 <= r < |data| && contents' == contents
            && |disk.inodes| == |old(disk.inodes)| && 0 <= InodeAt(m.inodes, dirs, names) < |disk.inodes|
            && Written(old(disk.D()), old(disk.w), old(disk.inodes), disk.D(), disk.inodeBlocks + 1, disk.freelistHead,
                       disk.w, disk.inodes, InodeAt(m.inodes, dirs, names), data, off, c, r)
            && InOrderBut(disk, dirs, contents, InodeAt(m.inodes, dirs, names))
            && OthersSeen(old(disk.inodes), dirs, contents, disk.inodes, dirs, contents, names))
  {
    hide StateOk, StateBut, FsOk, NamespaceOk, FirstInoOk, HasContent, NameOf, InodeAt, Look, PathOf, Becomes, OthersSeen,
         Plain, Overlay, NumFree, Fits, BlocksFor, Leftover, OthersKept, WorldOk, Cost, See, Rewritten, ModelOf, BlocksAt, Occupied;
    OrderParts(disk, dirs, contents);
    ModelIs(disk, dirs, contents, names);
    LookIs(disk, dirs, contents, names);
    ghost var d0, lo, head0, w0, inodes0 := disk.D(), disk.inodeBlocks + 1, disk.freelistHead, disk.w, disk.inodes;
    ModelParts(inodes0, dirs, contents, NumFree(w0.owner));
    contents' := contents;
    if data == [] {
      return 0, contents;
    }
    if off < 0 {
      return -EINVAL, contents;
    }
    var inum := NameI(disk, path, dirs);
    if inum == -1 {
      return -ENOENT, contents;
    }
    ghost var c := contents[inum];
    r := Write(disk, inum, data, off, c);
    if r == |data| {
      contents' := contents[inum := Overlay(c, off, data)];
      FileChanged(d0, lo, head0, w0, inodes0, dirs, contents, disk.D(), disk.freelistHead, disk.w, disk.inodes,
                  names, inum, Overlay(c, off, data));
      FirstInoKept(inodes0, inum, disk.inodes[inum], disk.firstIno);
      SizeIs(disk.D(), disk.inodes[inum], disk.w.files[inum], Overlay(c, off, data));
      RewrittenModel(inodes0, dirs, contents, NumFree(w0.owner), disk.inodes, NumFree(disk.w.owner), inum, Overlay(c, off, data));
    } else {
      WriteStopped(d0, lo, head0, w0, inodes0, dirs, contents, disk.D(), disk.freelistHead, disk.w, disk.inodes,
                   names, inum, data, off, c);
      FirstInoKept(inodes0, inum, disk.inodes[inum], disk.firstIno);
    }
  }

  lemma SizeIs(d: seq<Block>, rec: InodeRec, f: FileMap, c: seq<byte>)
    requires HasContent(d, rec, f, c)
    ensures rec.blocks == BlocksFor(|c|)
  {
  }

  lemma ModelParts(inodes: seq<InodeRec>, dirs: Tree, contents: seq<seq<byte>>, free: int)
    ensures
      var m := ModelOf(inodes, dirs, contents, free);
      && m.inodes == Shapes(inodes) && m.dirs == dirs && m.contents == contents && m.free == free
  {
  }

  /** Sets the length of the file at a path. */
  method TruncatePath(disk: Disk, path: seq<byte>, length: int, ghost names: seq<seq<byte>>, ghost dirs: Tree,
                      ghost contents: seq<seq<byte>>)
    returns (r: int, ghost contents': seq<seq<byte>>)
    requires InOrder(disk, dirs, contents) && Plain(names) && path == PathOf(names)
    requires Allowed(Now(disk, dirs, contents), SetLength(names, length))
    modifies disk`freelistHead, disk`w, disk`inodes, disk.store
    ensures r == -ENOENT <==> See(old(Now(disk, dirs, contents)))(names) == Absent
    ensures r == -ENOENT || length < 0 ==>
      InOrder(disk, dirs, contents') && contents' == contents && Now(disk, dirs, contents) == old(Now(disk, dirs, contents))
    ensures r != -ENOENT && length < 0 ==> r == -EINVAL
    ensures r != -ENOENT && 0 <= length ==>
      var m := old(Now(disk, dirs, contents));
      var c := See(m)(names).bytes;
      && (r == 0 <==> length <= |c| || Fits(BlocksFor(|c|), |c|, length - |c|, m.free))
      && (r == 0 ==>
            && InOrder(disk, dirs, contents') && Now(disk, dirs, contents') == Next(m, SetLength(names, length))
            && Becomes(old(disk.inodes), dirs, contents, disk.inodes, dirs, contents', names, File(Fitted(c, length))))
      && (r != 0 ==>
            && r == -1 && |c| < length && contents' == contents
            && WrittenPartly(old(disk.D()), old(disk.w), old(disk.inodes), disk.D(), disk.inodeBlocks + 1, disk.freelistHead,
                             disk.w, disk.inodes, InodeAt(m.inodes, dirs, names), Zeros(length - |c|), |c|, c)
            && InOrderBut(disk, dirs, contents, InodeAt(m.inodes, dirs, names))
            && OthersSeen(old(disk.inodes), dirs, contents, disk.inodes, dirs, contents, names))
  {
    hide StateOk, StateBut, FsOk, NamespaceOk, FirstInoOk, HasContent, NameOf, InodeAt, Look, PathOf, Becomes, OthersSeen,
         Plain, NumFree, Fits, BlocksFor, OthersKept, WorldOk, Cost, ExactCut, See, Rewritten, ModelOf, BlocksAt, Occupied,
         WrittenPartly;
    OrderParts(disk, dirs, contents);
    ModelIs(disk, dirs, contents, names);
    LookIs(disk, dirs, contents, names);
    ghost var d0, lo, head0, w0, inodes0 := disk.D(), disk.inodeBlocks + 1, disk.freelistHead, disk.w, disk.inodes;
    ModelParts(inodes0, dirs, contents, NumFree(w0.owner));
    contents' := contents;
    var inum := NameI(disk, path, dirs);
    if inum == -1 {
      return -ENOENT, contents;
    }
    ghost var c := contents[inum];
    r := Truncate(disk, inum, length, c);
    if r == 0 {
      contents' := contents[inum := Fitted(c, length)];
      FileChanged(d0, lo, head0, w0, inodes0, dirs, contents, disk.D(), disk.freelistHead, disk.w, disk.inodes,
                  names, inum, Fitted(c, length));
      FirstInoKept(inodes0, inum, disk.inodes[inum], disk.firstIno);
      SizeIs(disk.D(), disk.inodes[inum], disk.w.files[inum], Fitted(c, length));
      RewrittenModel(inodes0, dirs, contents, NumFree(w0.owner), disk.inodes, NumFree(disk.w.owner), inum, Fitted(c, length));
    } else if r == -1 {
      WriteStopped(d0, lo, head0, w0, inodes0, dirs, contents, disk.D(), disk.freelistHead, disk.w, disk.inodes,
                   names, inum, Zeros(length - |c|), |c|, c);
      FirstInoKept(inodes0, inum, disk.inodes[inum], disk.firstIno);
    }
  }

  /** When a new inode can be entered at a path that does not resolve. */
  lemma MakableIff(disk: Disk, dirs: Tree, contents: seq<seq<byte>>, names: seq<seq<byte>>)
    requires InOrder(disk, dirs, contents) && Plain(names) && Look(disk.inodes, dirs, contents, names) == Absent
    ensures |dirs| == |disk.inodes| && names != [] && ParentIndex(PathOf(names)) >= 0
    ensures
      var m := Now(disk, dirs, contents);
      && (Creatable(disk.inodes, dirs, PathOf(names), NumFree(disk.w.owner)) <==>
            !Unmakable(See(m), names) && RoomFor(m, names))
      && InodeAt(m.inodes, dirs, names[..|names| - 1]) == InodeAt(disk.inodes, dirs, names[..|names| - 1])
      && var p := NameOf(disk.inodes, dirs, Parent(PathOf(names)));
         && p == InodeAt(disk.inodes, dirs, names[..|names| - 1])
         && FileName(PathOf(names)) == names[|names| - 1]
         && (Unmakable(See(m), names) <==> p == -1 || (0 <= p < |dirs| && !disk.inodes[p].isDir))
  {
    hide InOrder, StateOk, FsOk, NamespaceOk, NameOf, PathOf, InodeAt, Look, ParentIndex, Parent, FileName, EntryFits,
         NumFree, Component, CString, Proper, HasContent, See, BlocksAt, Occupied;
    OrderParts(disk, dirs, contents);
    ModelIs(disk, dirs, contents, names);
    LookIs(disk, dirs, contents, names);
    AtRoot(disk.inodes, dirs);
    if names != [] {
      var p, name := names[..|names| - 1], names[|names| - 1];
      Snoc(names);
      PlainSnoc(p, name);
      AtLast(disk.inodes, dirs, p, name);
      ModelIs(disk, dirs, contents, p);
      LookIs(disk, dirs, contents, p);
    }
  }

  /** A new inode, in the model. */
  lemma MadeModel(inodes0: seq<InodeRec>, dirs: Tree, contents: seq<seq<byte>>, free0: int, inodes: seq<InodeRec>, dirs': Tree,
                  free: int, names: seq<seq<byte>>, p: int, r: int, isDir: bool)
    requires names != [] && |inodes| == |inodes0| == |dirs| && 0 <= p < |dirs| && 3 <= r < |dirs| && p != r
    requires p == InodeAt(inodes0, dirs, names[..|names| - 1])
    requires !inodes0[r].inUse && forall i :: 3 <= i < r ==> inodes0[i].inUse
    requires forall i :: 0 <= i < |inodes| && i != r ==> Shape(inodes[i]) == Shape(inodes0[i])
    requires inodes[r].inUse && inodes[r].isDir == isDir
    requires dirs' == if isDir then WithDir(dirs, p, names[|names| - 1], r) else WithFile(dirs, p, names[|names| - 1], r)
    requires free == free0 - EntryCost(dirs[p], names[|names| - 1]) - if isDir then 1 else 0
    ensures ModelOf(inodes, dirs', contents, free) == WithInode(ModelOf(inodes0, dirs, contents, free0), names, isDir)
  {
    hide InodeAt, WithFile, WithDir, EntryCost, Look, NameOf;
    SameShapes(inodes0, dirs, contents, names[..|names| - 1]);
    assert Shapes(inodes) == Shapes(inodes0)[r := Shape(NewInode(isDir))];
    assert NextIno(Shapes(inodes0), 3) == r;
  }

  /** A call that could not enter a name leaves the paths and the files as they were. */
  lemma NotEntered(d0: seq<Block>, lo: int, head0: int, w0: World, inodes0: seq<InodeRec>, dirs: Tree,
                   contents: seq<seq<byte>>, disk: Disk, p: int, same: bool)
    requires StateOk(d0, lo, head0, w0, inodes0, dirs, contents) && lo == disk.inodeBlocks + 1 && |inodes0| < TWO63
    requires TableOk(disk) && FirstInoOk(disk.inodes, disk.firstIno) && disk.inodes == inodes0 && disk.Sound()
    requires same ==> disk.D() == d0 && disk.w == w0 && disk.freelistHead == head0
    requires !same ==>
      && OthersKept(d0, w0, disk.D(), disk.w, p) && NamespaceOk(disk.D(), disk.w, disk.inodes, dirs) && 0 <= p < |inodes0|
    ensures same ==> InOrder(disk, dirs, contents)
    ensures !same ==> InOrderBut(disk, dirs, contents, p)
  {
    hide StateOk, StateBut, OthersKept, NamespaceOk, WorldOk;
    if !same {
      CreateStopped(d0, lo, head0, w0, inodes0, dirs, contents, disk.D(), disk.freelistHead, disk.w, p);
    }
  }

  /** What holds after a new inode could not be entered for want of room: nothing is seen to
      have changed, and only the directory `p` may have lost blocks. */
  ghost predicate Unentered(inodes0: seq<InodeRec>, disk: Disk, dirs: Tree, contents: seq<seq<byte>>, p: int)
    reads disk, disk.store
  {
    disk.inodes == inodes0 && InOrderBut(disk, dirs, contents, p)
  }

  /** Makes an empty file at a path. */
  method Mknod(disk: Disk, path: seq<byte>, ghost names: seq<seq<byte>>, ghost dirs: Tree, ghost contents: seq<seq<byte>>)
    returns (ok: bool, ghost dirs': Tree)
    requires InOrder(disk, dirs, contents) && Plain(names) && path == PathOf(names)
    modifies disk, disk.store
    ensures
      var m := old(Now(disk, dirs, contents));
      && (ok <==> !Unmakable(See(m), names) && RoomFor(m, names))
      && (Unmakable(See(m), names) ==>
            InOrder(disk, dirs', contents) && dirs' == dirs && Now(disk, dirs, contents) == m)
      && (!ok && !Unmakable(See(m), names) ==>
            && names != [] && dirs' == dirs
            && Unentered(old(disk.inodes), disk, dirs, contents, InodeAt(m.inodes, dirs, names[..|names| - 1])))
      && (ok ==> InOrder(disk, dirs', contents) && Now(disk, dirs', contents) == Next(m, MakeFile(names)))
    ensures ok ==>
      Becomes(old(disk.inodes), dirs, contents, disk.inodes, dirs', contents, names, File([]))
  {
    hide StateOk, StateBut, FsOk, NamespaceOk, FirstInoOk, HasContent, NameOf, InodeAt, Look, PathOf, Becomes, Plain,
         NumFree, OthersKept, WorldOk, RoomFor, Creatable, EntryFits, EntryCost, ParentIndex, Parent, FileName, Created,
         Unmakable, See, ModelOf, BlocksAt, Occupied, WithInode, WithFile;
    dirs' := dirs;
    OrderParts(disk, dirs, contents);
    ModelIs(disk, dirs, contents, names);
    LookIs(disk, dirs, contents, names);
    ghost var d0, lo, head0, w0, inodes0 := disk.D(), disk.inodeBlocks + 1, disk.freelistHead, disk.w, disk.inodes;
    var inum := NameI(disk, path, dirs);
    if inum != -1 {
      SomethingThere(See(Now(disk, dirs, contents)), names);
      return false, dirs;
    }
    MakableIff(disk, dirs, contents, names);
    PathCString(names);
    var r, p := CreateNewFile(disk, path, false, dirs);
    ghost var parent := InodeAt(inodes0, dirs, names[..|names| - 1]);
    if r <= -1 {
      NamedInUse(d0, w0, inodes0, dirs, Parent(path));
      NotEntered(d0, lo, head0, w0, inodes0, dirs, contents, disk, parent, r == -ENOENT);
      return false, dirs;
    }
    ok := true;
    Snoc(names);
    FileMade(d0, lo, head0, w0, inodes0, dirs, contents, disk, names[..|names| - 1], names[|names| - 1], r);
    dirs' := WithFile(dirs, p, names[|names| - 1], r);
    CreatedShapes(d0, w0, inodes0, dirs, disk, path, false, r);
    MadeModel(inodes0, dirs, contents, NumFree(w0.owner), disk.inodes, dirs', NumFree(disk.w.owner), names, p, r, false);
  }

  lemma SomethingThere(see: Sight, names: seq<seq<byte>>)
    ensures see(names) != Absent ==> Unmakable(see, names)
  {
  }

  /** What a create leaves of the records, as the model sees them. */
  lemma CreatedShapes(d0: seq<Block>, w0: World, inodes: seq<InodeRec>, dirs: Tree, disk: Disk, path: seq<byte>, isDir: bool, r: int)
    requires ParentIndex(path) >= 0 && |dirs| == |inodes| && Created(inodes, dirs, disk, path, isDir, r)
    requires NamespaceOk(d0, w0, inodes, dirs)
    ensures
      var p := NameOf(inodes, dirs, Parent(path));
      && 0 <= p < |inodes| == |disk.inodes| && 3 <= r < |inodes| && p != r
      && !inodes[r].inUse && (forall i :: 3 <= i < r ==> inodes[i].inUse)
      && (forall i :: 0 <= i < |inodes| && i != r ==> Shape(disk.inodes[i]) == Shape(inodes[i]))
      && disk.inodes[r].inUse && disk.inodes[r].isDir == isDir
  {
    hide FsOk, FirstInoOk, ParentIndex, Parent, FileName, NameOf, WithFile, DirOk, Denotes, UniqueNames, NamespaceOk;
    DirAt(d0, w0, inodes, dirs, r);
  }

  /** Gives the new directory `r` in directory `p` its own two entries. */
  method EnterDots(disk: Disk, r: int, p: int, ghost dirs: Tree) returns (ok: bool)
    requires TableOk(disk) && FirstInoOk(disk.inodes, disk.firstIno) && |disk.inodes| < TWO63
    requires FsOk(disk.D(), disk.inodeBlocks + 1, disk.freelistHead, disk.w, disk.inodes)
    requires NamespaceOk(disk.D(), disk.w, disk.inodes, dirs)
    requires 0 <= p < |disk.inodes| && 3 <= r < |disk.inodes| == |dirs| && disk.inodes[r].isDir && dirs[r] == []
    modifies disk, disk.store
    ensures ok <==> old(NumFree(disk.w.owner)) > 0
    ensures ok ==> NumFree(disk.w.owner) == old(NumFree(disk.w.owner)) - 1
    ensures !ok ==>
      && disk.D() == old(disk.D()) && disk.w == old(disk.w) && disk.freelistHead == old(disk.freelistHead)
      && disk.inodes == old(disk.inodes) && disk.firstIno == old(disk.firstIno)
    ensures ok ==>
      && TableOk(disk) && FirstInoOk(disk.inodes, disk.firstIno) && |disk.inodes| == |dirs|
      && DirFinished(old(disk.D()), old(disk.w), old(disk.inodes),
                     disk.D(), disk.inodeBlocks + 1, disk.freelistHead, disk.w, disk.inodes, p, r)
  {
    hide FsOk, NamespaceOk, FirstInoOk, NumFree, OthersKept, WorldOk, FileOk, DirOk, DirAttributes, DotEntries;
    ghost var d, lo, head, w, inodes := disk.D(), disk.inodeBlocks + 1, disk.freelistHead, disk.w, disk.inodes;
    FsInode(d, lo, head, w, inodes, r);
    DirAt(d, w, inodes, dirs, r);
    var node := GetInode(disk, r);
    ok := FillDir(disk, node, r, p);
    if !ok {
      return;
    }
    AttributesKept(inodes[r], node.Rec());
    UpdateOk(d, lo, head, w, inodes, disk.D(), disk.freelistHead, disk.w, node.Rec(), r);
    FirstInoKept(inodes, r, node.Rec(), disk.firstIno);
    SameCount(d, w, disk.D(), disk.w, r);
    var _ := WriteInode(disk, r, node);
  }

  lemma StartedDir(d0: seq<Block>, w0: World, inodes0: seq<InodeRec>, dirs: Tree, disk: Disk, path: seq<byte>,
                   p: int, name: seq<byte>, r: int)
    requires ParentIndex(path) >= 0 && |dirs| == |inodes0| && Created(inodes0, dirs, disk, path, true, r)
    requires p == NameOf(inodes0, dirs, Parent(path)) && name == FileName(path)
    requires OthersKept(d0, w0, disk.D(), disk.w, p) && NamespaceOk(d0, w0, inodes0, dirs)
    ensures 0 <= p < |dirs| && 3 <= r < |disk.inodes| == |dirs| && disk.inodes[r].isDir
    ensures TableOk(disk) && FirstInoOk(disk.inodes, disk.firstIno)
    ensures DirStarted(d0, w0, inodes0, dirs, disk.D(), disk.inodeBlocks + 1, disk.freelistHead, disk.w, disk.inodes, p, name, r)
    ensures FsOk(disk.D(), disk.inodeBlocks + 1, disk.freelistHead, disk.w, disk.inodes)
    ensures NamespaceOk(disk.D(), disk.w, disk.inodes, WithFile(dirs, p, name, r))
  {
    hide FsOk, FirstInoOk, NamespaceOk, ParentIndex, Parent, FileName, NameOf, DirAttributes, WithFile,
         OthersKept, DirOk, Denotes;
    WithSize(dirs, p, name, r);
    DirAt(d0, w0, inodes0, dirs, r);
    DirAt(disk.D(), disk.w, disk.inodes, WithFile(dirs, p, name, r), r);
  }

  /** Makes a directory with "." and ".." at a path. */
  method Mkdir(disk: Disk, path: seq<byte>, ghost names: seq<seq<byte>>, ghost dirs: Tree, ghost contents: seq<seq<byte>>)
    returns (ok: bool, ghost dirs': Tree)
    requires InOrder(disk, dirs, contents) && Plain(names) && path == PathOf(names)
    modifies disk, disk.store
    ensures
      var m := old(Now(disk, dirs, contents));
      && (ok <==> !Unmakable(See(m), names) && Possible(m, MakeDir(names)))
      && (Unmakable(See(m), names) ==>
            InOrder(disk, dirs', contents) && dirs' == dirs && Now(disk, dirs, contents) == m)
      && (!ok && !Unmakable(See(m), names) && !RoomFor(m, names) ==>
            && names != [] && dirs' == dirs
            && Unentered(old(disk.inodes), disk, dirs, contents, InodeAt(m.inodes, dirs, names[..|names| - 1])))
      && (ok ==> InOrder(disk, dirs', contents) && Now(disk, dirs', contents) == Next(m, MakeDir(names)))
      && (!ok && !Unmakable(See(m), names) && RoomFor(m, names) ==> InOrderBut(disk, dirs', contents, -1))
      && (!Unmakable(See(m), names) && RoomFor(m, names) ==>
            Becomes(old(disk.inodes), dirs, contents, disk.inodes, dirs', contents, names, Dir))
  {
    hide StateOk, StateBut, FsOk, NamespaceOk, FirstInoOk, HasContent, NameOf, InodeAt, Look, PathOf, Becomes, Plain,
         NumFree, OthersKept, WorldOk, RoomFor, Creatable, EntryFits, EntryCost, ParentIndex, Parent, FileName, Created,
         Unmakable, See, ModelOf, BlocksAt, Occupied, WithInode, WithFile, WithDir, DirStarted, DirFinished;
    dirs' := dirs;
    OrderParts(disk, dirs, contents);
    ModelIs(disk, dirs, contents, names);
    LookIs(disk, dirs, contents, names);
    ghost var d0, lo, head0, w0, inodes0 := disk.D(), disk.inodeBlocks + 1, disk.freelistHead, disk.w, disk.inodes;
    ModelParts(inodes0, dirs, contents, NumFree(w0.owner));
    var inum := NameI(disk, path, dirs);
    if inum != -1 {
      SomethingThere(See(Now(disk, dirs, contents)), names);
      return false, dirs;
    }
    MakableIff(disk, dirs, contents, names);
    PathCString(names);
    Snoc(names);
    var r, p := CreateNewFile(disk, path, true, dirs);
    ghost var parent := InodeAt(inodes0, dirs, names[..|names| - 1]);
    if r <= -1 {
      NamedInUse(d0, w0, inodes0, dirs, Parent(path));
      NotEntered(d0, lo, head0, w0, inodes0, dirs, contents, disk, parent, r == -ENOENT);
      return false, dirs;
    }
    ghost var name := names[|names| - 1];
    ghost var d1, head1, w1, inodes1 := disk.D(), disk.freelistHead, disk.w, disk.inodes;
    CreatedShapes(d0, w0, inodes0, dirs, disk, path, true, r);
    StartedDir(d0, w0, inodes0, dirs, disk, path, p, name, r);
    WithSize(dirs, p, name, r);
    ok := EnterDots(disk, r, p, WithFile(dirs, p, name, r));
    if !ok {
      DirStopped(d0, lo, head0, w0, inodes0, dirs, contents, d1, head1, w1, inodes1, names[..|names| - 1], name, r);
      return false, WithFile(dirs, p, name, r);
    }
    DirMade(d0, lo, head0, w0, inodes0, dirs, contents, d1, head1, w1, inodes1,
            disk.D(), disk.freelistHead, disk.w, disk.inodes, names[..|names| - 1], name, r);
    dirs' := WithDir(dirs, p, name, r);
    FinishedShapes(d1, w1, inodes1, disk.D(), lo, disk.freelistHead, disk.w, disk.inodes, p, r);
    MadeModel(inodes0, dirs, contents, NumFree(w0.owner), disk.inodes, dirs', NumFree(disk.w.owner), names, p, r, true);
  }

  lemma FinishedShapes(d1: seq<Block>, w1: World, inodes1: seq<InodeRec>,
                       d2: seq<Block>, lo: int, head2: int, w2: World, inodes2: seq<InodeRec>, p: int, r: int)
    requires DirFinished(d1, w1, inodes1, d2, lo, head2, w2, inodes2, p, r)
    ensures |inodes2| == |inodes1| && forall i :: 0 <= i < |inodes1| ==> Shape(inodes2[i]) == Shape(inodes1[i])
  {
    hide FsOk, DirOk, OthersKept;
  }

  lemma OrderTree(disk: Disk, dirs: Tree, contents: seq<seq<byte>>)
    requires InOrder(disk, dirs, contents)
    ensures TreeOk(disk.inodes, dirs)
  {
    hide FsOk, NamespaceOk, TreeOk, FilesOk;
  }

  lemma NotRootPath(inodes: seq<InodeRec>, dirs: Tree, names: seq<seq<byte>>)
    requires TreeOk(inodes, dirs) && Plain(names) && names != []
    ensures InodeAt(inodes, dirs, names) != ROOT_INODE_NUM
  {
    hide TreeOk, InodeAt, Child, Component, CString;
    Snoc(names);
    PlainSnoc(names[..|names| - 1], names[|names| - 1]);
    AtLast(inodes, dirs, names[..|names| - 1], names[|names| - 1]);
    NotRoot(inodes, dirs, InodeAt(inodes, dirs, names[..|names| - 1]), names[|names| - 1]);
  }

  lemma EntryNamed(inodes: seq<InodeRec>, dirs: Tree, p: int, name: seq<byte>)
    requires TreeOk(inodes, dirs) && Proper(name) && Child(inodes, dirs, p, name) != -1
    ensures Component(name) && CString(name)
  {
    hide Component, CString, Child, UpOk;
    assert Entered(inodes, dirs, p, name, Child(inodes, dirs, p, name));
  }

  lemma LeadsOnIff(disk: Disk, dirs: Tree, contents: seq<seq<byte>>, names: seq<seq<byte>>)
    requires InOrder(disk, dirs, contents) && Plain(names) && names != []
    requires Look(disk.inodes, dirs, contents, names) != Absent
    ensures
      Occupied(disk.inodes, dirs, InodeAt(disk.inodes, dirs, names)) <==> LeadsOn(See(Now(disk, dirs, contents)), names)
  {
    hide FsOk, NamespaceOk, TreeOk, FilesOk, NameOf, PathOf, InodeAt, Look, Component, CString, Child, Occupied,
         HasContent, Plain;
    OrderParts(disk, dirs, contents);
    OrderTree(disk, dirs, contents);
    LookIs(disk, dirs, contents, names);
    var r := InodeAt(disk.inodes, dirs, names);
    NotRootPath(disk.inodes, dirs, names);
    OccupiedIff(disk.D(), disk.w, disk.inodes, dirs, r);
    forall name | Plain(names + [name])
      ensures See(Now(disk, dirs, contents))(names + [name]) != Absent <==> Child(disk.inodes, dirs, r, name) != -1
      ensures Proper(name)
    {
      PlainSnoc(names, name);
      AtLast(disk.inodes, dirs, names, name);
      LookIs(disk, dirs, contents, names + [name]);
      SeeIs(disk, dirs, contents, names + [name]);
    }
    forall name | Proper(name) && Child(disk.inodes, dirs, r, name) != -1 ensures Plain(names + [name]) {
      EntryNamed(disk.inodes, dirs, r, name);
      PlainSnoc(names, name);
    }
  }

  /** A file taken out, in the model. */
  lemma GoneModel(d0: seq<Block>, w0: World, inodes: seq<InodeRec>, dirs: Tree, contents: seq<seq<byte>>, disk: Disk,
                  names: seq<seq<byte>>, p: int, r: int)
    requires names != [] && ParentIndex(PathOf(names)) >= 0 && FileName(PathOf(names)) == names[|names| - 1]
    requires p == InodeAt(inodes, dirs, names[..|names| - 1]) == NameOf(inodes, dirs, Parent(PathOf(names)))
    requires r == InodeAt(inodes, dirs, names) && 0 <= r < |inodes| == |dirs| == |contents| && 0 <= p < |dirs| && p != r
    requires Unlinked(d0, w0, inodes, dirs, disk, PathOf(names), r) && inodes[r].links == 1
    requires inodes[r].blocks == if inodes[r].isDir then |dirs[r]| else BlocksFor(|contents[r]|)
    ensures
      ModelOf(disk.inodes, WithoutFile(dirs, p, names[|names| - 1], r), contents[r := []], NumFree(disk.w.owner)) ==
        TakenOut(ModelOf(inodes, dirs, contents, NumFree(w0.owner)), names)
  {
    hide InodeAt, WithoutFile, NumFree, Look, NameOf, KeptBut, FsOk, NamespaceOk, FirstInoOk, ParentIndex, Parent,
         FileName,
         PathOf, IndexBlocks, BlocksFor, Passes;
    SameShapes(inodes, dirs, contents, names[..|names| - 1]);
    SameShapes(inodes, dirs, contents, names);
    assert Shapes(disk.inodes) == Shapes(inodes)[r := ZeroInode()];
  }

  /** Unlinks the file or empty directory at a path. */
  method UnlinkPath(disk: Disk, path: seq<byte>, ghost names: seq<seq<byte>>, ghost dirs: Tree, ghost contents: seq<seq<byte>>)
    returns (r: int, ghost dirs': Tree, ghost contents': seq<seq<byte>>)
    requires InOrder(disk, dirs, contents) && Plain(names) && path == PathOf(names)
    requires Allowed(Now(disk, dirs, contents), Remove(names))
    modifies disk, disk.store
    ensures
      var m := old(Now(disk, dirs, contents));
      && (r == -ENOENT <==> See(m)(names) == Absent)
      && (r == -EACCES <==> names == [])
      && (r == -ENOTEMPTY <==> names != [] && See(m)(names) != Absent && LeadsOn(See(m), names))
      && (r == 0 || r == -ENOENT || r == -EACCES || r == -ENOTEMPTY)
      && (r != 0 ==>
            InOrder(disk, dirs', contents') && dirs' == dirs && contents' == contents && Now(disk, dirs, contents) == m)
      && (r == 0 ==> InOrder(disk, dirs', contents') && Now(disk, dirs', contents') == Next(m, Remove(names)))
    ensures r == 0 ==>
      Becomes(old(disk.inodes), dirs, contents, disk.inodes, dirs', contents', names, Absent)
  {
    hide StateOk, FsOk, NamespaceOk, FirstInoOk, HasContent, NameOf, InodeAt, Look, PathOf, Becomes, Plain,
         NumFree, WorldOk,
         ParentIndex, Parent, FileName, Occupied, Removable, LeadsOn, Unlinked, WithoutFile, TreeOk, See, ModelOf, TakenOut,
         BlocksAt;
    OrderParts(disk, dirs, contents);
    OrderTree(disk, dirs, contents);
    ModelIs(disk, dirs, contents, names);
    LookIs(disk, dirs, contents, names);
    AtRoot(disk.inodes, dirs);
    ghost var d0, lo, head0, w0, inodes0 := disk.D(), disk.inodeBlocks + 1, disk.freelistHead, disk.w, disk.inodes;
    ghost var i := InodeAt(inodes0, dirs, names);
    ghost var p, name := [], [];
    if names != [] {
      Snoc(names);
      p, name := names[..|names| - 1], names[|names| - 1];
      NotRootPath(inodes0, dirs, names);
      if i != -1 {
        LeadsOnIff(disk, dirs, contents, names);
        if !Occupied(inodes0, dirs, i) {
          CanUnlink(d0, lo, head0, w0, inodes0, dirs, contents, p, name);
          EntryAt(d0, lo, head0, w0, inodes0, dirs, contents, p, name);
          BlocksAre(d0, lo, head0, w0, inodes0, dirs, contents, i);
        }
      }
    }
    r := Unlink(disk, path, dirs);
    dirs', contents' := dirs, contents;
    if r == 0 {
      FileGone(d0, lo, head0, w0, inodes0, dirs, contents, disk, p, name);
      dirs', contents' := WithoutFile(dirs, InodeAt(inodes0, dirs, p), name, i), contents[i := []];
      GoneModel(d0, w0, inodes0, dirs, contents, disk, names, InodeAt(inodes0, dirs, p), i);
    } else {
      StateSame(d0, lo, head0, w0, inodes0, dirs, contents, disk);
    }
  }

  lemma StateSame(d0: seq<Block>, lo: int, head0: int, w0: World, inodes0: seq<InodeRec>, dirs: Tree,
                  contents: seq<seq<byte>>, disk: Disk)
    requires StateOk(d0, lo, head0, w0, inodes0, dirs, contents) && lo == disk.inodeBlocks + 1 && |inodes0| < TWO63
    requires TableOk(disk) && FirstInoOk(disk.inodes, disk.firstIno) && disk.inodes == inodes0
    requires disk.D() == d0 && disk.w == w0 && disk.freelistHead == head0
    ensures InOrder(disk, dirs, contents)
  {
    hide StateOk;
  }

  /** What a call makes of one path it makes of what is seen. */
  lemma BecomesAfter(inodes0: seq<InodeRec>, dirs: Tree, contents: seq<seq<byte>>, free0: int,
                     inodes: seq<InodeRec>, dirs': Tree, contents': seq<seq<byte>>, free: int, c: Call, v: View)
    requires Becomes(inodes0, dirs, contents, inodes, dirs', contents', c.names, v) && Plain(c.names)
    requires v == Effect(See(ModelOf(inodes0, dirs, contents, free0))(c.names), c)
    ensures SameSight(See(ModelOf(inodes, dirs', contents', free)), After(See(ModelOf(inodes0, dirs, contents, free0)), c))
  {
    hide Look, Plain, Effect;
    forall q | Plain(q)
      ensures See(ModelOf(inodes, dirs', contents', free))(q) == After(See(ModelOf(inodes0, dirs, contents, free0)), c)(q)
    {
      SameShapes(inodes0, dirs, contents, q);
      SameShapes(inodes, dirs', contents', q);
    }
  }

  lemma NothingDone(see: Sight, c: Call)
    requires c.Put? && c.data == []
    ensures SameSight(see, After(see, c))
  {
  }

  lemma SameSeen(inodes: seq<InodeRec>, dirs: Tree, contents: seq<seq<byte>>, names: seq<seq<byte>>)
    ensures OthersSeen(inodes, dirs, contents, inodes, dirs, contents, names)
  {
  }

  lemma BecomesElsewhere(inodes0: seq<InodeRec>, dirs: Tree, contents: seq<seq<byte>>,
                         inodes: seq<InodeRec>, dirs': Tree, contents': seq<seq<byte>>, names: seq<seq<byte>>, v: View)
    requires Becomes(inodes0, dirs, contents, inodes, dirs', contents', names, v)
    ensures OthersSeen(inodes0, dirs, contents, inodes, dirs', contents', names)
  {
    hide Look, Plain;
  }

  /** What a call that has run out of room leaves: every other path shows what it showed, the
      directories have their records, and every file but inode `but` has its content. */
  ghost predicate RanOut(inodes0: seq<InodeRec>, dirs0: Tree, contents0: seq<seq<byte>>,
                         disk: Disk, dirs: Tree, contents: seq<seq<byte>>, but: int, names: seq<seq<byte>>)
    reads disk, disk.store
  {
    InOrderBut(disk, dirs, contents, but) && OthersSeen(inodes0, dirs0, contents0, disk.inodes, dirs, contents, names)
  }

  /** Performs one call. */
  method Perform(disk: Disk, c: Call, ghost dirs: Tree, ghost contents: seq<seq<byte>>)
    returns (ok: bool, ghost dirs': Tree, ghost contents': seq<seq<byte>>, ghost but: int)
    requires InOrder(disk, dirs, contents) && Plain(c.names)
    requires Allowed(Now(disk, dirs, contents), c)
    modifies disk, disk.store
    ensures
      var m := old(Now(disk, dirs, contents));
      && (ok <==> !Refused(See(m), c) && Possible(m, c))
      && (ok ==>
            && InOrder(disk, dirs', contents') && Now(disk, dirs', contents') == Next(m, c)
            && SameSight(See(Now(disk, dirs', contents')), After(See(m), c)))
      && (Refused(See(m), c) ==>
            InOrder(disk, dirs', contents') && Now(disk, dirs', contents') == m && dirs' == dirs && contents' == contents)
      && (!ok && !Refused(See(m), c) ==>
            RanOut(old(disk.inodes), dirs, contents, disk, dirs', contents', but, c.names))
  {
    hide InOrder, InOrderBut, NameOf, InodeAt, Look, PathOf, Plain, NumFree, RoomFor, Fits, Overlay, Occupied, ExactCut,
         TreeOk, BlocksFor, Fitted, See, ModelOf, BlocksAt, Unmakable, LeadsOn, Becomes, OthersSeen, Written, WrittenPartly,
         EntryCost, After, Next, SameSight;
    ModelIs(disk, dirs, contents, c.names);
    dirs', contents', but := dirs, contents, -1;
    ghost var inodes0, free0 := disk.inodes, NumFree(disk.w.owner);
    ghost var m := Now(disk, dirs, contents);
    SameSeen(inodes0, dirs, contents, c.names);
    match c {
      case MakeFile(names) =>
        ok, dirs' := Mknod(disk, PathOf(names), names, dirs, contents);
        if ok {
          BecomesAfter(inodes0, dirs, contents, free0, disk.inodes, dirs', contents, NumFree(disk.w.owner), c, File([]));
        } else if names != [] {
          but := InodeAt(m.inodes, dirs, names[..|names| - 1]);
        }
      case MakeDir(names) =>
        ok, dirs' := Mkdir(disk, PathOf(names), names, dirs, contents);
        if ok {
          BecomesAfter(inodes0, dirs, contents, free0, disk.inodes, dirs', contents, NumFree(disk.w.owner), c, Dir);
        } else if !Unmakable(See(m), names) {
          if RoomFor(m, names) {
            BecomesElsewhere(inodes0, dirs, contents, disk.inodes, dirs', contents, names, Dir);
          } else {
            but := InodeAt(m.inodes, dirs, names[..|names| - 1]);
          }
        }
      case Put(names, data, off) =>
        var r;
        r, contents' := WritePath(disk, PathOf(names), data, off, names, dirs, contents);
        ok := r == |data|;
        but := InodeAt(m.inodes, dirs, names);
        if data == [] {
          NothingDone(See(m), c);
          NothingNext(m, c);
        } else if ok {
          BecomesAfter(inodes0, dirs, contents, free0, disk.inodes, dirs, contents', NumFree(disk.w.owner), c,
                       File(Overlay(See(m)(names).bytes, off, data)));
        }
      case SetLength(names, length) =>
        var r;
        r, contents' := TruncatePath(disk, PathOf(names), length, names, dirs, contents);
        ok := r == 0;
        but := InodeAt(m.inodes, dirs, names);
        if ok {
          BecomesAfter(inodes0, dirs, contents, free0, disk.inodes, dirs, contents', NumFree(disk.w.owner), c,
                       File(Fitted(See(m)(names).bytes, length)));
        }
      case Remove(names) =>
        var r;
        r, dirs', contents' := UnlinkPath(disk, PathOf(names), names, dirs, contents);
        ok := r == 0;
        if ok {
          BecomesAfter(inodes0, dirs, contents, free0, disk.inodes, dirs', contents', NumFree(disk.w.owner), c, Absent);
        }
    }
  }

  lemma NothingNext(m: Model, c: Call)
    requires c.Put? && c.data == []
    ensures Next(m, c) == m
  {
  }

  method IsAllowed(disk: Disk, c: Call, ghost dirs: Tree, ghost contents: seq<seq<byte>>) returns (allowed: bool)
    requires InOrder(disk, dirs, contents)
    ensures allowed <==> Allowed(Now(disk, dirs, contents), c)
  {
    hide StateOk, FsOk, NamespaceOk, FirstInoOk, NameOf, InodeAt, Look, PathOf, ExactCut, BlocksFor, HasContent, DirOk,
         Entries, See, ModelOf, BlocksAt, NumFree;
    OrderParts(disk, dirs, contents);
    ModelIs(disk, dirs, contents, c.names);
    var inum := NameI(disk, PathOf(c.names), dirs);
    if inum == -1 {
      return true;
    }
    var node := GetInode(disk, inum);
    NaturalBlocks(disk.D(), disk.inodeBlocks + 1, disk.freelistHead, disk.w, disk.inodes, inum);
    match c {
      case Put(_, _, _) => allowed := !node.isDir;
      case SetLength(_, length) =>
        allowed := !node.isDir
          && (0 <= length && BlocksFor(length) < node.blocks ==>
                disk.freelistHead != 0 && ExactCut(node.blocks, BlocksFor(length)));
      case Remove(_) =>
        var empty := true;
        DirAt(disk.D(), disk.w, disk.inodes, dirs, inum);
        if node.isDir {
          empty := IsEmptyDir(node, disk.D(), disk.w.files[inum], dirs[inum]);
        }
        allowed := inum == ROOT_INODE_NUM || !empty || node.blocks == 0 || disk.freelistHead != 0;
      case _ => allowed := true;
    }
  }

  lemma NaturalBlocks(d: seq<Block>, lo: int, head: int, w: World, inodes: seq<InodeRec>, i: int)
    requires FsOk(d, lo, head, w, inodes) && 0 <= i < |inodes|
    ensures 0 <= inodes[i].blocks
  {
    assert FileOk(d, inodes[i], w.files[i]);
  }

  /** Performs the calls up to the first that does not succeed: it is the first that the model
      says is not allowed, refused or not possible.  The file system on the disk is then the
      outcome of the calls before it in the model, or what is left of that by a call that has
      run out of room. */
  method RunCalls(disk: Disk, calls: seq<Call>, ghost dirs0: Tree, ghost contents0: seq<seq<byte>>)
    returns (done: nat, ghost dirs: Tree, ghost contents: seq<seq<byte>>, ghost but: int)
    requires InOrder(disk, dirs0, contents0) && forall c :: c in calls ==> Plain(c.names)
    modifies disk, disk.store
    ensures done <= |calls|
    ensures
      var m := old(Now(disk, dirs0, contents0));
      var m' := Outcome(m, calls[..done]);
      && (forall i :: 0 <= i < done ==> Succeeds(Outcome(m, calls[..i]), calls[i]))
      && (done < |calls| ==> !Succeeds(m', calls[done]))
      && SameSight(See(m'), Seen(See(m), calls[..done]))
      && (done == |calls| || !Allowed(m', calls[done]) || Refused(See(m'), calls[done]) ==>
            InOrder(disk, dirs, contents) && Now(disk, dirs, contents) == m')
      && (done < |calls| && Allowed(m', calls[done]) && !Refused(See(m'), calls[done]) ==>
            && InOrderBut(disk, dirs, contents, but)
            && forall q :: Plain(q) && q != calls[done].names ==> See(Now(disk, dirs, contents))(q) == See(m')(q))
  {
    hide InOrder, InOrderBut, Plain, Allowed, Refused, Possible, Effect, See, ModelOf, Next, Now, SameSight, OthersSeen,
         Outcome, Seen, After;
    ghost var m := Now(disk, dirs0, contents0);
    done, dirs, contents, but := 0, dirs0, contents0, -1;
    AtStart(m, See(m), calls);
    while done < |calls|
      invariant 0 <= done <= |calls|
      invariant InOrder(disk, dirs, contents) && Now(disk, dirs, contents) == Outcome(m, calls[..done])
      invariant forall i :: 0 <= i < done ==> Succeeds(Outcome(m, calls[..i]), calls[i])
      invariant SameSight(See(Outcome(m, calls[..done])), Seen(See(m), calls[..done]))
    {
      var c := calls[done];
      var allowed := IsAllowed(disk, c, dirs, contents);
      if !allowed {
        return;
      }
      ghost var before, inodes0, dirs1, contents1 := Now(disk, dirs, contents), disk.inodes, dirs, contents;
      NowIs(disk, dirs, contents);
      var ok;
      ok, dirs, contents, but := Perform(disk, c, dirs, contents);
      NowIs(disk, dirs, contents);
      if !ok {
        if !Refused(See(before), c) {
          SeenElsewhere(inodes0, dirs1, contents1, before.free, disk.inodes, dirs, contents, NumFree(disk.w.owner), c.names);
        }
        return;
      }
      OutcomeSnoc(m, calls, done);
      SeenSnoc(See(m), calls, done);
      AfterSame(See(before), Seen(See(m), calls[..done]), c);
      SightsJoin(See(Now(disk, dirs, contents)), After(See(before), c), Seen(See(m), calls[..done + 1]));
      done := done + 1;
    }
  }

  lemma NowIs(disk: Disk, dirs: Tree, contents: seq<seq<byte>>)
    ensures Now(disk, dirs, contents) == ModelOf(disk.inodes, dirs, contents, NumFree(disk.w.owner))
    ensures Now(disk, dirs, contents).free == NumFree(disk.w.owner)
  {
  }

  lemma AtStart(m: Model, see: Sight, calls: seq<Call>)
    ensures Outcome(m, calls[..0]) == m && Seen(see, calls[..0]) == see && SameSight(see, see)
  {
  }

  lemma SeenElsewhere(inodes0: seq<InodeRec>, dirs: Tree, contents: seq<seq<byte>>, free0: int,
                      inodes: seq<InodeRec>, dirs': Tree, contents': seq<seq<byte>>, free: int, names: seq<seq<byte>>)
    requires OthersSeen(inodes0, dirs, contents, inodes, dirs', contents', names)
    ensures forall q :: Plain(q) && q != names ==>
              See(ModelOf(inodes, dirs', contents', free))(q) == See(ModelOf(inodes0, dirs, contents, free0))(q)
  {
    hide Look, Plain;
    forall q | Plain(q) && q != names
      ensures See(ModelOf(inodes, dirs', contents', free))(q) == See(ModelOf(inodes0, dirs, contents, free0))(q)
    {
      SameShapes(inodes0, dirs, contents, q);
      SameShapes(inodes, dirs', contents', q);
    }
  }

  lemma EmptyTree(n: nat, inodes: seq<InodeRec>, name: seq<byte>)
    requires n == |inodes| > ROOT_INODE_NUM && inodes[ROOT_INODE_NUM].isDir
    requires forall i :: 0 <= i < |inodes| && i != ROOT_INODE_NUM ==> !inodes[i].isDir
    ensures forall p :: Child(inodes, RootTree(n), p, name) ==
              if p == ROOT_INODE_NUM && !Proper(name) then ROOT_INODE_NUM else -1
  {
    hide LookupIn, Entries, UniqueNames;
    DotsLookup(ROOT_INODE_NUM, ROOT_INODE_NUM, name);
  }

  /** The model of a file system of `n` inodes and `free` blocks with nothing but the root. */
  function Fresh(n: nat, free: int): Model {
    Model(FreshTable(n), RootTree(n), seq(n, _ => []), free)
  }

  function FreshTable(n: nat): (t: seq<InodeRec>)
    ensures |t| == n
    ensures forall i :: 0 <= i < n ==> t[i] == if i == ROOT_INODE_NUM then Shape(NewInode(true)) else ZeroInode()
  {
    seq(n, i requires 0 <= i < n => if i == ROOT_INODE_NUM then Shape(NewInode(true)) else ZeroInode())
  }

  /** What is at each path then. */
  function Nothing(): Sight {
    q => if q == [] then Dir else Absent
  }

  /** A file system that has just been set up is in order, and shows nothing but the root. */
  lemma SetUpOk(disk: Disk)
    requires TableOk(disk) && FirstInoOk(disk.inodes, disk.firstIno) && ROOT_INODE_NUM < |disk.inodes| < TWO63
    requires FsOk(disk.D(), disk.inodeBlocks + 1, disk.freelistHead, disk.w, disk.inodes)
    requires NamespaceOk(disk.D(), disk.w, disk.inodes, RootTree(|disk.inodes|)) && disk.inodes[ROOT_INODE_NUM].isDir
    requires forall i :: 0 <= i < |disk.inodes| && i != ROOT_INODE_NUM ==> disk.inodes[i] == ZeroInode()
    ensures
      var n := |disk.inodes|;
      && InOrder(disk, RootTree(n), seq(n, _ => []))
      && Now(disk, RootTree(n), seq(n, _ => [])) == Fresh(n, NumFree(disk.w.owner))
  {
    hide FsOk, NamespaceOk, Child, Component, CString, NumFree, RootTree;
    var n := |disk.inodes|;
    var dirs := RootTree(n);
    forall p, name ensures Child(disk.inodes, dirs, p, name) ==
      if p == ROOT_INODE_NUM && !Proper(name) then ROOT_INODE_NUM else -1
    {
      EmptyTree(n, disk.inodes, name);
    }
    RootInUse(disk.D(), disk.w, disk.inodes, dirs);
    FreshShapes(disk.inodes);
  }

  lemma FreshShapes(inodes: seq<InodeRec>)
    requires |inodes| > ROOT_INODE_NUM && inodes[ROOT_INODE_NUM].inUse && inodes[ROOT_INODE_NUM].isDir
    requires forall i :: 0 <= i < |inodes| && i != ROOT_INODE_NUM ==> inodes[i] == ZeroInode()
    ensures Shapes(inodes) == Fresh(|inodes|, 0).inodes
  {
    hide RootTree;
    assert Shapes(inodes) == FreshTable(|inodes|);
  }

  lemma FreshInodes(n: nat, free: int)
    requires n > ROOT_INODE_NUM
    ensures
      var m := Fresh(n, free);
      && |m.inodes| == |m.contents| == n && m.dirs == RootTree(n) && m.inodes[ROOT_INODE_NUM].isDir
      && forall i :: 0 <= i < n && i != ROOT_INODE_NUM ==> !m.inodes[i].isDir
  {
  }

  lemma RootInUse(d: seq<Block>, w: World, inodes: seq<InodeRec>, dirs: Tree)
    requires NamespaceOk(d, w, inodes, dirs)
    ensures ROOT_INODE_NUM < |inodes| == |dirs| == |w.files| && inodes[ROOT_INODE_NUM].inUse
  {
  }

  /** In a fresh file system there is nothing but the root. */
  lemma FreshSight(n: nat, free: int)
    requires n > ROOT_INODE_NUM
    ensures SameSight(See(Fresh(n, free)), Nothing())
  {
    hide InodeAt, Plain, Child, Component, CString, RootTree, Fresh;
    var m := Fresh(n, free);
    FreshInodes(n, free);
    forall q | Plain(q) ensures See(m)(q) == Nothing()(q) {
      AtRoot(m.inodes, m.dirs);
      if q != [] {
        Snoc(q);
        PlainSnoc(q[..|q| - 1], q[|q| - 1]);
        AtLast(m.inodes, m.dirs, q[..|q| - 1], q[|q| - 1]);
        EmptyTree(n, m.inodes, q[|q| - 1]);
      }
    }
  }

  /** Files can be made in a fresh file system: with any name of 1 to 255 bytes. */
  lemma FirstFile(n: nat, free: int, name: seq<byte>)
    requires n > 3 && free > 0 && Plain([name]) && 1 <= |name| <= 255
    ensures Succeeds(Fresh(n, free), MakeFile([name]))
  {
    hide InodeAt, Fresh, FreshTable, RootTree, EntryFits, Plain, IndexBlocks;
    var m := Fresh(n, free);
    FreshSight(n, free);
    FreshInodes(n, free);
    FreeInodes(n, free);
    assert [name][..0] == [];
    RootPlain();
    AtRoot(m.inodes, m.dirs);
    IndexBlocksClosed(1);
    IndexBlocksClosed(2);
    NameLimit(m.dirs[ROOT_INODE_NUM], name, free);
  }

  lemma RootPlain()
    ensures Plain([])
  {
  }

  lemma FreeInodes(n: nat, free: int)
    requires n > 3
    ensures
      var m := Fresh(n, free);
      && |m.inodes| == |m.dirs| == n && m.free == free && !m.inodes[3].inUse && m.dirs[ROOT_INODE_NUM] == [RootEntries()]
  {
  }

  /** Which calls are allowed, whatever the state: all that make something, put bytes into a
      file, cut at block 524 or before while blocks are free, or remove while blocks are free. */
  lemma OftenAllowed(m: Model, c: Call)
    requires |m.inodes| == |m.dirs| == |m.contents|
    requires
      || c.MakeFile? || c.MakeDir?
      || (c.Put? && See(m)(c.names) != Dir)
      || (c.SetLength? && See(m)(c.names) != Dir && m.free > 0 && BlocksFor(c.length) <= 524)
      || (c.Remove? && m.free > 0)
    ensures Allowed(m, c)
  {
    hide InodeAt;
  }

  /** Formats the device, sets up the root directory and performs the calls. */
  method FormatAndRunCalls(disk: Disk, calls: seq<Call>)
    returns (ok: bool, done: nat, ghost dirs: Tree, ghost contents: seq<seq<byte>>, ghost but: int)
    requires disk.inodeBlocks < disk.store.Length && disk.perBlock > 0
    requires FIRST_INO <= disk.inodeBlocks * disk.perBlock < TWO63
    requires forall c :: c in calls ==> Plain(c.names)
    modifies disk, disk.store
    ensures ok <==> (disk.store.Length - disk.inodeBlocks - 1) % K != 0
    ensures ok ==>
      var m := Fresh(disk.inodeBlocks * disk.perBlock, disk.store.Length - disk.inodeBlocks - 2);
      && done <= |calls|
      && var m' := Outcome(m, calls[..done]);
         && (forall i :: 0 <= i < done ==> Succeeds(Outcome(m, calls[..i]), calls[i]))
         && (done < |calls| ==> !Succeeds(m', calls[done]))
         && SameSight(See(m'), Seen(Nothing(), calls[..done]))
         && (done == |calls| || !Allowed(m', calls[done]) || Refused(See(m'), calls[done]) ==>
               InOrder(disk, dirs, contents) && Now(disk, dirs, contents) == m')
         && (done < |calls| && Allowed(m', calls[done]) && !Refused(See(m'), calls[done]) ==>
               && InOrderBut(disk, dirs, contents, but)
               && forall q :: Plain(q) && q != calls[done].names ==> See(Now(disk, dirs, contents))(q) == See(m')(q))
  {
    hide InOrder, InOrderBut, WorldOk, NumFree, FileOk, Look, Plain, Allowed, Refused, Effect, See, NamespaceOk, RootTree,
         Fresh, Next, Possible, Now, SameSight;
    done, dirs, contents, but := 0, [], [], -1;
    ok := MakeFs(disk);
    if ok {
      ok := SetupFilesystem(disk);
      SetUpOk(disk);
      ghost var n := |disk.inodes|;
      ghost var m := Fresh(n, NumFree(disk.w.owner));
      FreshSight(n, NumFree(disk.w.owner));
      done, dirs, contents, but := RunCalls(disk, calls, RootTree(n), seq(n, _ => []));
      SeenSame(See(m), Nothing(), calls[..done]);
      SightsJoin(See(Outcome(m, calls[..done])), Seen(See(m), calls[..done]), Seen(Nothing(), calls[..done]));
    }
  }
}
