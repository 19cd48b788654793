/** The file system as a tree of files with contents: what a change to one path makes of it. */
module Changes {
  import opened Blocks
  import opened Ownership
  import opened BlockMap
  import opened Disk
  import opened Inodes
  import opened Content
  import opened Append
  import opened Files
  import opened Writes
  import opened Truncates
  import opened Records
  import opened Listings
  import opened Directory
  import opened Paths
  import opened Namespace
  import opened Trees

  /** Every file holds its content, and has one link; the first two inodes are not used. */
  ghost predicate FilesOk(d: seq<Block>, w: World, inodes: seq<InodeRec>, contents: seq<seq<byte>>) {
    && |contents| == |inodes| == |w.files| && ROOT_INODE_NUM < |inodes| && inodes[ROOT_INODE_NUM].isDir
    && (forall i :: 0 <= i < |inodes| && !inodes[i].isDir ==> HasContent(d, inodes[i], w.files[i], contents[i]))
    && (forall i :: 3 <= i < |inodes| && inodes[i].inUse ==> inodes[i].links == 1)
    && !inodes[0].inUse && !inodes[1].inUse
  }

  /** The file system, its directories, their tree and the contents of its files are in order. */
  ghost predicate StateOk(d: seq<Block>, lo: int, head: int, w: World, inodes: seq<InodeRec>, dirs: Tree,
                          contents: seq<seq<byte>>) {
    && FsOk(d, lo, head, w, inodes) && NamespaceOk(d, w, inodes, dirs) && TreeOk(inodes, dirs)
    && FilesOk(d, w, inodes, contents)
  }

  ghost predicate InOrder(disk: Disk, dirs: Tree, contents: seq<seq<byte>>)
    reads disk, disk.store
  {
    && TableOk(disk) && FirstInoOk(disk.inodes, disk.firstIno) && |disk.inodes| < TWO63
    && StateOk(disk.D(), disk.inodeBlocks + 1, disk.freelistHead, disk.w, disk.inodes, dirs, contents)
  }

  lemma StateParts(d: seq<Block>, lo: int, head: int, w: World, inodes: seq<InodeRec>, dirs: Tree, contents: seq<seq<byte>>)
    requires StateOk(d, lo, head, w, inodes, dirs, contents)
    ensures FsOk(d, lo, head, w, inodes) && NamespaceOk(d, w, inodes, dirs) && TreeOk(inodes, dirs)
    ensures FilesOk(d, w, inodes, contents) && |contents| == |inodes| == |dirs| == |w.files|
  {
    hide FsOk, TreeOk, DirOk, HasContent;
  }

  lemma FileAt(d: seq<Block>, w: World, inodes: seq<InodeRec>, contents: seq<seq<byte>>, i: int)
    requires FilesOk(d, w, inodes, contents) && 0 <= i < |inodes|
    ensures |contents| == |w.files| == |inodes|
    ensures !inodes[i].isDir ==> HasContent(d, inodes[i], w.files[i], contents[i])
    ensures inodes[i].inUse && i != ROOT_INODE_NUM ==> 3 <= i && inodes[i].links == 1
  {
    hide HasContent;
  }

  /** A change to the bytes of one file keeps the directories. */
  lemma NamespaceKept(d0: seq<Block>, lo: int, head0: int, w0: World, inodes0: seq<InodeRec>, dirs: Tree,
                      d: seq<Block>, w: World, inodes: seq<InodeRec>, inum: int)
    requires FsOk(d0, lo, head0, w0, inodes0) && NamespaceOk(d0, w0, inodes0, dirs) && OthersKept(d0, w0, d, w, inum)
    requires 0 <= inum < |inodes0| && !inodes0[inum].isDir && inodes0[inum].inUse
    requires |inodes| == |inodes0| && inodes == inodes0[inum := inodes[inum]]
    requires inodes[inum].inUse && !inodes[inum].isDir
    ensures NamespaceOk(d, w, inodes, dirs)
  {
    hide FsOk, DirOk, Entries, UniqueNames, LookupIn, OthersKept;
    SameCount(d0, w0, d, w, inum);
    forall i | 0 <= i < |inodes| && inodes[i].isDir ensures DirOk(d, inodes[i], w.files[i], dirs[i]) {
      FsInode(d0, lo, head0, w0, inodes0, i);
      DirKept(d0, lo, head0, w0, inodes0[i], i, dirs[i], d, w, inum);
    }
    forall i, name | 0 <= i < |inodes| && inodes[i].isDir ensures NamesUsed(inodes, dirs[i], name) {
      assert NamesUsed(inodes0, dirs[i], name);
    }
  }

  /** And the contents of the other files. */
  lemma ContentsKept(d0: seq<Block>, lo: int, head0: int, w0: World, inodes0: seq<InodeRec>, contents: seq<seq<byte>>,
                     d: seq<Block>, w: World, inodes: seq<InodeRec>, inum: int, c: seq<byte>)
    requires FsOk(d0, lo, head0, w0, inodes0) && FilesOk(d0, w0, inodes0, contents) && OthersKept(d0, w0, d, w, inum)
    requires 0 <= inum < |inodes0| && |inodes| == |inodes0| && inodes == inodes0[inum := inodes[inum]]
    requires inodes[inum].inUse == inodes0[inum].inUse && inodes[inum].isDir == inodes0[inum].isDir
    requires inodes[inum].links == inodes0[inum].links
    requires |w.files| == |inodes| && (inodes[inum].isDir || HasContent(d, inodes[inum], w.files[inum], c))
    ensures FilesOk(d, w, inodes, contents[inum := c])
  {
    hide FsOk, HasContent, OthersKept, FileOk;
    forall i | 0 <= i < |inodes| && !inodes[i].isDir && i != inum ensures HasContent(d, inodes[i], w.files[i], contents[i]) {
      FsInode(d0, lo, head0, w0, inodes0, i);
      OtherFileKept(d0, lo, head0, w0, d, w, inum, i, inodes[i], contents[i]);
    }
  }

  lemma Attributes(rec: InodeRec, rec': InodeRec)
    requires SameAttributes(rec.(size := rec'.size), rec')
    ensures rec'.isDir == rec.isDir && rec'.inUse == rec.inUse && rec'.links == rec.links
  {
  }

  /** The state after the file at `names` has got the content `c`. */
  lemma FileChanged(d0: seq<Block>, lo: int, head0: int, w0: World, inodes0: seq<InodeRec>, dirs: Tree,
                    contents: seq<seq<byte>>, d: seq<Block>, head: int, w: World, inodes: seq<InodeRec>,
                    names: seq<seq<byte>>, inum: int, c: seq<byte>)
    requires StateOk(d0, lo, head0, w0, inodes0, dirs, contents) && Plain(names) && inum == InodeAt(inodes0, dirs, names) != -1
    requires 0 <= inum < |inodes0| == |inodes| && !inodes0[inum].isDir
    requires Updated(d0, w0, inodes0, d, lo, head, w, inodes, inum, c)
    ensures |contents| == |inodes0| == |w.files| && StateOk(d, lo, head, w, inodes, dirs, contents[inum := c])
    ensures Becomes(inodes0, dirs, contents, inodes, dirs, contents[inum := c], names, File(c))
    ensures inodes == inodes0[inum := inodes[inum]]
    ensures inodes[inum].inUse == inodes0[inum].inUse && inodes[inum].isDir == inodes0[inum].isDir
  {
    hide FsOk, NamespaceOk, TreeOk, FilesOk, HasContent, OthersKept, NumFree, Cost, InodeAt, Look, Plain;
    StateParts(d0, lo, head0, w0, inodes0, dirs, contents);
    NamedInUse(d0, w0, inodes0, dirs, PathOf(names));
    AtIs(inodes0, dirs, names);
    Attributes(inodes0[inum], inodes[inum]);
    SameCount(d0, w0, d, w, inum);
    NamespaceKept(d0, lo, head0, w0, inodes0, dirs, d, w, inodes, inum);
    ContentsKept(d0, lo, head0, w0, inodes0, contents, d, w, inodes, inum, c);
    TreeSame(inodes0, inodes, dirs);
    forall q | Plain(q)
      ensures Look(inodes, dirs, contents[inum := c], q) ==
        if q == names then File(c) else Look(inodes0, dirs, contents, q)
    {
      LookChanged(inodes0, inodes, dirs, contents, c, names, q);
    }
  }

  lemma AtIs(inodes: seq<InodeRec>, dirs: Tree, names: seq<seq<byte>>)
    ensures InodeAt(inodes, dirs, names) == NameOf(inodes, dirs, PathOf(names))
  {
  }

  /** Entering the new file `r` is one step of growth. */
  lemma CreateSprouts(inodes: seq<InodeRec>, dirs: Tree, inodes': seq<InodeRec>, p: int, name: seq<byte>, r: int)
    requires |dirs| == |inodes| == |inodes'| && 0 <= p < |inodes| && 3 <= r < |inodes| && r != p
    requires inodes[p].isDir && LookupIn(Entries(dirs[p]), name) == None && Unnamed(inodes, dirs, r)
    requires forall i :: 0 <= i < |inodes| && i != r ==> inodes'[i].isDir == inodes[i].isDir
    requires !inodes[r].isDir
    ensures Sprouts(inodes, dirs, inodes', WithFile(dirs, p, name, r), p, name, r, inodes'[r].isDir, false)
  {
    hide Child, LookupIn, Entries, Unnamed, Added;
    AbsentChild(inodes, dirs, p, name);
    var dirs' := WithFile(dirs, p, name, r);
    forall i, other
      ensures Child(inodes', dirs', i, other) ==
        if i == r then -1 else if i == p && other == name then r else Child(inodes, dirs, i, other)
    {
      ChildAfterCreate(inodes, dirs, inodes', p, name, r, i, other);
    }
  }

  /** The directories after the new directory `r` has got its own two entries. */
  function WithDir(dirs: Tree, p: int, name: seq<byte>, r: int): Tree
    requires 0 <= p < |dirs| && 0 <= r < |dirs|
  {
    WithFile(dirs, p, name, r)[r := [DotEntries(r, p)]]
  }

  lemma DotsLookup(r: int, p: int, other: seq<byte>)
    ensures Entries([DotEntries(r, p)]) == DotEntries(r, p) && UniqueNames(DotEntries(r, p))
    ensures LookupIn(DotEntries(r, p), other) ==
      if other == DOT then Some(r) else if other == DOT_DOT then Some(p) else None
  {
    DotsAdded(r, p);
    var rs := DotEntries(r, p);
    FindIs(rs, other, if other == DOT then 0 else if other == DOT_DOT then 1 else 2);
  }

  lemma MakeDirSprouts(inodes: seq<InodeRec>, dirs: Tree, inodes': seq<InodeRec>, p: int, name: seq<byte>, r: int)
    requires |dirs| == |inodes| == |inodes'| && 0 <= p < |inodes| && 3 <= r < |inodes| && r != p
    requires inodes[p].isDir && LookupIn(Entries(dirs[p]), name) == None && Unnamed(inodes, dirs, r)
    requires forall i :: 0 <= i < |inodes| && i != r ==> inodes'[i].isDir == inodes[i].isDir
    requires !inodes[r].isDir && inodes'[r].isDir
    ensures Sprouts(inodes, dirs, inodes', WithDir(dirs, p, name, r), p, name, r, true, true)
  {
    hide Child, LookupIn, Entries, Unnamed, DotEntries, WithFile;
    AbsentChild(inodes, dirs, p, name);
    var dirs1, dirs' := WithFile(dirs, p, name, r), WithDir(dirs, p, name, r);
    WithSize(dirs, p, name, r);
    forall i, other
      ensures Child(inodes', dirs', i, other) ==
        if i == r then (if other == DOT then r else if other == DOT_DOT then p else -1)
        else if i == p && other == name then r
        else Child(inodes, dirs, i, other)
    {
      if i == r {
        DotsLookup(r, p, other);
        ChildHere(inodes', dirs', r, other);
      } else {
        ChildAfterCreate(inodes, dirs, inodes', p, name, r, i, other);
        ChildElsewhere(inodes', dirs1, dirs', i, other);
      }
    }
  }

  lemma WithSize(dirs: Tree, p: int, name: seq<byte>, r: int)
    requires 0 <= p < |dirs| && 0 <= r < |dirs|
    ensures |WithFile(dirs, p, name, r)| == |dirs| && WithFile(dirs, p, name, r)[r] == []
  {
    hide Added;
  }

  lemma ChildHere(inodes: seq<InodeRec>, dirs: Tree, i: int, name: seq<byte>)
    requires 0 <= i < |inodes| == |dirs| && inodes[i].isDir
    ensures Child(inodes, dirs, i, name) ==
      if LookupIn(Entries(dirs[i]), name).Some? then LookupIn(Entries(dirs[i]), name).value else -1
  {
  }

  lemma ChildElsewhere(inodes: seq<InodeRec>, dirs: Tree, dirs': Tree, i: int, name: seq<byte>)
    requires |dirs'| == |dirs| && (0 <= i < |dirs| ==> dirs'[i] == dirs[i])
    ensures Child(inodes, dirs', i, name) == Child(inodes, dirs, i, name)
  {
  }

  /** The contents after a new inode has been entered in directory `p`. */
  lemma CreatedFiles(d0: seq<Block>, lo: int, head0: int, w0: World, inodes0: seq<InodeRec>, contents: seq<seq<byte>>,
                     d: seq<Block>, w: World, inodes: seq<InodeRec>, p: int, r: int, isDir: bool)
    requires FsOk(d0, lo, head0, w0, inodes0) && FilesOk(d0, w0, inodes0, contents) && OthersKept(d0, w0, d, w, p)
    requires 0 <= p < |inodes0| && 3 <= r < |inodes0| && p != r && inodes0[p].isDir && inodes0[r] == ZeroInode()
    requires |inodes| == |inodes0| && inodes == inodes0[p := inodes[p]][r := NewInode(isDir)]
    requires inodes[p].inUse == inodes0[p].inUse && inodes[p].isDir && inodes[p].links == inodes0[p].links
    requires |w.files| == |inodes|
    ensures FilesOk(d, w, inodes, contents) && contents[r] == []
  {
    hide FsOk, OthersKept, FileOk;
    FileAt(d0, w0, inodes0, contents, r);
    assert |contents[r]| == 0;
    forall i | 0 <= i < |inodes| && !inodes[i].isDir ensures HasContent(d, inodes[i], w.files[i], contents[i]) {
      if i != r {
        FsInode(d0, lo, head0, w0, inodes0, i);
        OtherFileKept(d0, lo, head0, w0, d, w, p, i, inodes[i], contents[i]);
      }
    }
  }

  /** The state after a file has been created. */
  lemma FileMade(d0: seq<Block>, lo: int, head0: int, w0: World, inodes0: seq<InodeRec>, dirs: Tree,
                 contents: seq<seq<byte>>, disk: Disk, names: seq<seq<byte>>, name: seq<byte>, r: int)
    requires lo == disk.inodeBlocks + 1 && StateOk(d0, lo, head0, w0, inodes0, dirs, contents) && Plain(names + [name])
    requires |inodes0| == |dirs| && InodeAt(inodes0, dirs, names + [name]) == -1 && |inodes0| < TWO63
    requires ParentIndex(PathOf(names + [name])) >= 0 && Created(inodes0, dirs, disk, PathOf(names + [name]), false, r)
    requires OthersKept(d0, w0, disk.D(), disk.w, InodeAt(inodes0, dirs, names))
    ensures 0 <= InodeAt(inodes0, dirs, names) < |dirs| && 0 <= r < |dirs|
    ensures
      var dirs' := WithFile(dirs, InodeAt(inodes0, dirs, names), name, r);
      && InOrder(disk, dirs', contents)
      && Becomes(inodes0, dirs, contents, disk.inodes, dirs', contents, names + [name], File([]))
  {
    hide WorldOk, FsOk, NamespaceOk, TreeOk, FilesOk, OthersKept, Plain, LookupIn, Entries, Sprouts, Becomes,
         NameOf, Added, ParentIndex, Parent, FileName, Child, DirAttributes, PathOf;
    NewPlace(d0, lo, head0, w0, inodes0, dirs, contents, disk.inodes, names, name, r);
    var p := InodeAt(inodes0, dirs, names);
    AttributesKept(inodes0[p], disk.inodes[p]);
    LinksKept(inodes0[p], disk.inodes[p]);
    SameCount(d0, w0, disk.D(), disk.w, p);
    CreateSprouts(inodes0, dirs, disk.inodes, p, name, r);
    CreatedFiles(d0, lo, head0, w0, inodes0, contents, disk.D(), disk.w, disk.inodes, p, r, false);
    SproutsTree(inodes0, dirs, disk.inodes, WithFile(dirs, p, name, r), p, name, r, false, false);
    SproutsLook(inodes0, dirs, disk.inodes, WithFile(dirs, p, name, r), contents, names, name, r, false, false);
  }

  lemma LinksKept(rec: InodeRec, rec': InodeRec)
    requires DirAttributes(rec, rec')
    ensures rec'.links == rec.links
  {
  }

  /** Where a path that does not resolve would be entered. */
  lemma NewPlace(d0: seq<Block>, lo: int, head0: int, w0: World, inodes0: seq<InodeRec>, dirs: Tree,
                 contents: seq<seq<byte>>, inodes: seq<InodeRec>, names: seq<seq<byte>>, name: seq<byte>, r: int)
    requires StateOk(d0, lo, head0, w0, inodes0, dirs, contents) && Plain(names + [name])
    requires InodeAt(inodes0, dirs, names + [name]) == -1 && 3 <= r < |inodes0| && !inodes0[r].inUse
    ensures Plain(names) && Proper(name) && Component(name) && CString(name)
    ensures ParentIndex(PathOf(names + [name])) >= 0
    ensures Parent(PathOf(names + [name])) == PathOf(names) && FileName(PathOf(names + [name])) == name
    ensures |contents| == |inodes0| == |dirs| == |w0.files|
    ensures FsOk(d0, lo, head0, w0, inodes0) && NamespaceOk(d0, w0, inodes0, dirs) && TreeOk(inodes0, dirs)
    ensures FilesOk(d0, w0, inodes0, contents)
    ensures Unnamed(inodes0, dirs, r) && inodes0[r] == ZeroInode()
    ensures InodeAt(inodes0, dirs, names) == NameOf(inodes0, dirs, PathOf(names))
    ensures
      var p := InodeAt(inodes0, dirs, names);
      0 <= p < |inodes0| && inodes0[p].isDir ==> LookupIn(Entries(dirs[p]), name) == None && p != r && inodes0[p].inUse
  {
    hide FsOk, NamespaceOk, TreeOk, FilesOk, LookupIn, Entries, NameOf, ParentIndex, Parent, FileName, Child,
         Component, CString, Proper, PathOf, Unnamed, Plain;
    StateParts(d0, lo, head0, w0, inodes0, dirs, contents);
    PlainSnoc(names, name);
    AtLast(inodes0, dirs, names, name);
    AtIs(inodes0, dirs, names);
    AtIs(inodes0, dirs, names + [name]);
    DirAt(d0, w0, inodes0, dirs, r);
    UnusedUnnamed(d0, w0, inodes0, dirs, r);
    AbsentName(d0, w0, inodes0, dirs, PathOf(names + [name]));
    NamedInUse(d0, w0, inodes0, dirs, PathOf(names));
  }

  /** Replacing the records of one directory. */
  lemma DirFilled(d: seq<Block>, lo: int, head: int, w: World, inodes: seq<InodeRec>, dirs: Tree,
                  d': seq<Block>, w': World, inodes': seq<InodeRec>, r: int, dir: seq<seq<Record>>)
    requires FsOk(d, lo, head, w, inodes) && NamespaceOk(d, w, inodes, dirs) && OthersKept(d, w, d', w', r)
    requires 0 <= r < |inodes| == |dirs| && |inodes'| == |inodes| == |w'.files| && inodes' == inodes[r := inodes'[r]]
    requires inodes'[r].inUse && inodes[r].inUse
    requires DirOk(d', inodes'[r], w'.files[r], dir) && UniqueNames(Entries(dir))
    requires forall name :: NamesUsed(inodes, dir, name)
    ensures NamespaceOk(d', w', inodes', dirs[r := dir])
  {
    hide FsOk, DirOk, Entries, UniqueNames, LookupIn;
    var dirs' := dirs[r := dir];
    forall i | 0 <= i < |inodes| && inodes'[i].isDir && i != r ensures DirOk(d', inodes'[i], w'.files[i], dirs'[i]) {
      FsInode(d, lo, head, w, inodes, i);
      DirKept(d, lo, head, w, inodes[i], i, dirs[i], d', w', r);
    }
    forall i, name | 0 <= i < |inodes| && inodes'[i].isDir ensures NamesUsed(inodes', dirs'[i], name) {
      if i != r {
        assert NamesUsed(inodes, dirs[i], name);
      } else {
        assert NamesUsed(inodes, dir, name);
      }
    }
  }

  lemma DotsUsed(inodes: seq<InodeRec>, r: int, p: int, name: seq<byte>)
    requires 0 <= r < |inodes| && 0 <= p < |inodes| && inodes[r].inUse && inodes[p].inUse
    ensures NamesUsed(inodes, [DotEntries(r, p)], name) && UniqueNames(Entries([DotEntries(r, p)]))
  {
    hide LookupIn, Entries, UniqueNames, DotEntries;
    DotsLookup(r, p, name);
  }

  /** A new directory has been entered in directory `p`, still without entries of its own. */
  ghost predicate DirStarted(d0: seq<Block>, w0: World, inodes0: seq<InodeRec>, dirs: Tree,
                             d: seq<Block>, lo: int, head: int, w: World, inodes: seq<InodeRec>,
                             p: int, name: seq<byte>, r: int) {
    && 0 <= p < |inodes0| && 3 <= r < |inodes0| && p != r && |dirs| == |inodes0| == |inodes| == |w.files|
    && inodes0[p].isDir && !inodes0[r].inUse && inodes == inodes0[p := inodes[p]][r := NewInode(true)]
    && DirAttributes(inodes0[p], inodes[p]) && OthersKept(d0, w0, d, w, p)
    && FsOk(d, lo, head, w, inodes) && NamespaceOk(d, w, inodes, WithFile(dirs, p, name, r))
  }

  /** It has got its two entries. */
  ghost predicate DirFinished(d1: seq<Block>, w1: World, inodes1: seq<InodeRec>,
                              d2: seq<Block>, lo: int, head2: int, w2: World, inodes2: seq<InodeRec>, p: int, r: int) {
    && 0 <= r < |inodes1| == |inodes2| == |w2.files|
    && inodes2 == inodes1[r := inodes2[r]] && DirAttributes(inodes1[r], inodes2[r]) && OthersKept(d1, w1, d2, w2, r)
    && FsOk(d2, lo, head2, w2, inodes2) && DirOk(d2, inodes2[r], w2.files[r], [DotEntries(r, p)])
  }

  /** The state after a directory has been made. */
  lemma DirMade(d0: seq<Block>, lo: int, head0: int, w0: World, inodes0: seq<InodeRec>, dirs: Tree,
                contents: seq<seq<byte>>, d1: seq<Block>, head1: int, w1: World, inodes1: seq<InodeRec>,
                d2: seq<Block>, head2: int, w2: World, inodes2: seq<InodeRec>,
                names: seq<seq<byte>>, name: seq<byte>, r: int)
    requires StateOk(d0, lo, head0, w0, inodes0, dirs, contents) && Plain(names + [name])
    requires InodeAt(inodes0, dirs, names + [name]) == -1
    requires DirStarted(d0, w0, inodes0, dirs, d1, lo, head1, w1, inodes1, InodeAt(inodes0, dirs, names), name, r)
    requires DirFinished(d1, w1, inodes1, d2, lo, head2, w2, inodes2, InodeAt(inodes0, dirs, names), r)
    ensures
      var dirs' := WithDir(dirs, InodeAt(inodes0, dirs, names), name, r);
      && StateOk(d2, lo, head2, w2, inodes2, dirs', contents)
      && Becomes(inodes0, dirs, contents, inodes2, dirs', contents, names + [name], Dir)
  {
    hide WorldOk, FsOk, NamespaceOk, TreeOk, FilesOk, OthersKept, Plain, LookupIn, Entries, Sprouts, Becomes,
         NameOf, Added, ParentIndex, Parent, FileName, Child, DirAttributes, PathOf, DirOk, WithFile, DotEntries,
         UniqueNames, NamesUsed;
    NewPlace(d0, lo, head0, w0, inodes0, dirs, contents, inodes2, names, name, r);
    var p := InodeAt(inodes0, dirs, names);
    WithSize(dirs, p, name, r);
    AttributesKept(inodes0[p], inodes1[p]);
    LinksKept(inodes0[p], inodes1[p]);
    AttributesKept(inodes1[r], inodes2[r]);
    LinksKept(inodes1[r], inodes2[r]);
    CreatedFiles(d0, lo, head0, w0, inodes0, contents, d1, w1, inodes1, p, r, true);
    ContentsKept(d1, lo, head1, w1, inodes1, contents, d2, w2, inodes2, r, []);
    assert contents[r := []] == contents;
    forall other ensures NamesUsed(inodes1, [DotEntries(r, p)], other) && UniqueNames(Entries([DotEntries(r, p)])) {
      DotsUsed(inodes1, r, p, other);
    }
    DotsUsed(inodes1, r, p, name);
    DirFilled(d1, lo, head1, w1, inodes1, WithFile(dirs, p, name, r), d2, w2, inodes2, r, [DotEntries(r, p)]);
    MakeDirSprouts(inodes0, dirs, inodes2, p, name, r);
    SproutsTree(inodes0, dirs, inodes2, WithDir(dirs, p, name, r), p, name, r, true, true);
    SproutsLook(inodes0, dirs, inodes2, WithDir(dirs, p, name, r), contents, names, name, r, true, true);
  }

  /** An inode at a path below the root: where it is entered. */
  lemma EntryAt(d: seq<Block>, lo: int, head: int, w: World, inodes: seq<InodeRec>, dirs: Tree, contents: seq<seq<byte>>,
                names: seq<seq<byte>>, name: seq<byte>)
    requires StateOk(d, lo, head, w, inodes, dirs, contents) && Plain(names + [name])
    requires InodeAt(inodes, dirs, names + [name]) != -1
    ensures ParentIndex(PathOf(names + [name])) >= 0
    ensures Parent(PathOf(names + [name])) == PathOf(names) && FileName(PathOf(names + [name])) == name
    ensures |contents| == |inodes| == |dirs| == |w.files|
    ensures InodeAt(inodes, dirs, names) == NameOf(inodes, dirs, PathOf(names))
    ensures InodeAt(inodes, dirs, names + [name]) == NameOf(inodes, dirs, PathOf(names + [name]))
    ensures
      var p, r := InodeAt(inodes, dirs, names), InodeAt(inodes, dirs, names + [name]);
      Entered(inodes, dirs, p, name, r) && 3 <= r < |inodes| && inodes[r].inUse && inodes[r].links == 1
  {
    hide FsOk, NamespaceOk, TreeOk, FilesOk, LookupIn, Entries, NameOf, ParentIndex, Parent, FileName, Child,
         Component, CString, Proper, PathOf, Plain;
    StateParts(d, lo, head, w, inodes, dirs, contents);
    PlainSnoc(names, name);
    AtLast(inodes, dirs, names, name);
    AtIs(inodes, dirs, names);
    AtIs(inodes, dirs, names + [name]);
    NamedInUse(d, w, inodes, dirs, PathOf(names + [name]));
    NotRoot(inodes, dirs, InodeAt(inodes, dirs, names), name);
    FileAt(d, w, inodes, contents, InodeAt(inodes, dirs, names + [name]));
  }

  /** Whether a directory can be deleted is whether a path leads on from it. */
  lemma OccupiedIff(d: seq<Block>, w: World, inodes: seq<InodeRec>, dirs: Tree, r: int)
    requires NamespaceOk(d, w, inodes, dirs) && TreeOk(inodes, dirs) && 0 <= r < |inodes| && r != ROOT_INODE_NUM
    ensures Occupied(inodes, dirs, r) <==> !Childless(inodes, dirs, r)
  {
    hide TreeOk, DirOk, UniqueNames, Entries, LookupIn;
    if inodes[r].isDir {
      forall name ensures NamesUsed(inodes, dirs[r], name) {
      }
      CountsChildren(inodes, dirs, r);
    }
  }

  /** What is not occupied can be unlinked. */
  lemma CanUnlink(d: seq<Block>, lo: int, head: int, w: World, inodes: seq<InodeRec>, dirs: Tree, contents: seq<seq<byte>>,
                  names: seq<seq<byte>>, name: seq<byte>)
    requires StateOk(d, lo, head, w, inodes, dirs, contents) && Plain(names + [name])
    requires InodeAt(inodes, dirs, names + [name]) != -1 && !Occupied(inodes, dirs, InodeAt(inodes, dirs, names + [name]))
    ensures
      var r := InodeAt(inodes, dirs, names + [name]);
      && 0 <= r < |inodes| && Childless(inodes, dirs, r)
      && SoleName(inodes, dirs, r, InodeAt(inodes, dirs, names), name) && r != InodeAt(inodes, dirs, names)
      && ((inodes[r].blocks > 0 ==> head != 0) ==> Removable(inodes, dirs, PathOf(names + [name]), head))
  {
    hide FsOk, NamespaceOk, TreeOk, FilesOk, NameOf, ParentIndex, Parent, FileName, PathOf, Plain, Occupied,
         Entered, Childless, SoleName, InodeAt;
    EntryAt(d, lo, head, w, inodes, dirs, contents, names, name);
    StateParts(d, lo, head, w, inodes, dirs, contents);
    var r := InodeAt(inodes, dirs, names + [name]);
    OccupiedIff(d, w, inodes, dirs, r);
    SoleEntry(inodes, dirs, InodeAt(inodes, dirs, names), name, r);
  }

  lemma DeleteShrinks(inodes: seq<InodeRec>, dirs: Tree, inodes': seq<InodeRec>, p: int, name: seq<byte>, r: int)
    requires |dirs| == |inodes| == |inodes'| && 0 <= r < |inodes| && r != p
    requires Entered(inodes, dirs, p, name, r) && Childless(inodes, dirs, r)
    requires 0 <= p < |inodes| ==> UniqueNames(Entries(dirs[p]))
    requires forall i :: 0 <= i < |inodes| ==> inodes'[i].isDir == (i != r && inodes[i].isDir)
    ensures 0 <= p < |dirs| && Shrinks(inodes, dirs, inodes', WithoutFile(dirs, p, name, r), p, name, r)
  {
    hide Child, LookupIn, Entries, UniqueNames, Removed;
    ParentHas(inodes, dirs, p, name, r);
    var dirs' := WithoutFile(dirs, p, name, r);
    forall i, other
      ensures Child(inodes', dirs', i, other) ==
        if i == r || (i == p && other == name) then -1 else Child(inodes, dirs, i, other)
    {
      ChildAfterDelete(inodes, dirs, inodes', p, name, r, i, other);
    }
  }

  lemma DeletedFiles(d0: seq<Block>, lo: int, head0: int, w0: World, inodes0: seq<InodeRec>, contents: seq<seq<byte>>,
                     d: seq<Block>, w: World, inodes: seq<InodeRec>, p: int, r: int)
    requires FsOk(d0, lo, head0, w0, inodes0) && FilesOk(d0, w0, inodes0, contents) && KeptBut(d0, w0, d, w, p, r)
    requires 0 <= p < |inodes0| && 3 <= r < |inodes0| && p != r && inodes0[p].isDir
    requires |inodes| == |inodes0| && inodes == inodes0[r := ZeroInode()][p := inodes[p]]
    requires inodes[p] == inodes0[p].(children := inodes[p].children)
    requires |w.files| == |inodes|
    ensures |contents| == |inodes0| && FilesOk(d, w, inodes, contents[r := []])
  {
    hide FsOk, KeptBut, FileOk;
    forall i | 0 <= i < |inodes| && !inodes[i].isDir && i != r ensures HasContent(d, inodes[i], w.files[i], contents[i]) {
      FsInode(d0, lo, head0, w0, inodes0, i);
      KeptFile(d0, lo, head0, w0, d, w, p, r, i, inodes[i], contents[i]);
    }
  }

  lemma KeptSize(d0: seq<Block>, w0: World, d: seq<Block>, w: World, p: int, r: int)
    requires KeptBut(d0, w0, d, w, p, r)
    ensures |w.files| == |w0.files|
  {
  }

  /** The state after a file or an empty directory has been unlinked. */
  lemma FileGone(d0: seq<Block>, lo: int, head0: int, w0: World, inodes0: seq<InodeRec>, dirs: Tree,
                 contents: seq<seq<byte>>, disk: Disk, names: seq<seq<byte>>, name: seq<byte>)
    requires lo == disk.inodeBlocks + 1 && StateOk(d0, lo, head0, w0, inodes0, dirs, contents) && Plain(names + [name])
    requires |inodes0| < TWO63 && InodeAt(inodes0, dirs, names + [name]) != -1
    requires !Occupied(inodes0, dirs, InodeAt(inodes0, dirs, names + [name]))
    requires Unlinked(d0, w0, inodes0, dirs, disk, PathOf(names + [name]), InodeAt(inodes0, dirs, names + [name]))
    ensures
      var p, r := InodeAt(inodes0, dirs, names), InodeAt(inodes0, dirs, names + [name]);
      && 0 <= p < |dirs| && 0 <= r < |dirs| == |contents|
      && InOrder(disk, WithoutFile(dirs, p, name, r), contents[r := []])
      && Becomes(inodes0, dirs, contents, disk.inodes, WithoutFile(dirs, p, name, r), contents[r := []], names + [name], Absent)
  {
    hide WorldOk, FsOk, NamespaceOk, TreeOk, FilesOk, KeptBut, Plain, LookupIn, Entries, Shrinks, Becomes, NameOf,
         Removed, ParentIndex, Parent, FileName, Child, PathOf, Entered, Childless, Occupied, InodeAt, SoleName,
         UniqueNames, WithoutFile, NumFree, GivenBack;
    EntryAt(d0, lo, head0, w0, inodes0, dirs, contents, names, name);
    StateParts(d0, lo, head0, w0, inodes0, dirs, contents);
    CanUnlink(d0, lo, head0, w0, inodes0, dirs, contents, names, name);
    var p, r := InodeAt(inodes0, dirs, names), InodeAt(inodes0, dirs, names + [name]);
    EnteredIn(inodes0, dirs, p, name, r);
    UniqueAt(d0, w0, inodes0, dirs, p);
    KeptSize(d0, w0, disk.D(), disk.w, p, r);
    DeletedFiles(d0, lo, head0, w0, inodes0, contents, disk.D(), disk.w, disk.inodes, p, r);
    DeleteShrinks(inodes0, dirs, disk.inodes, p, name, r);
    ShrinksTree(inodes0, dirs, disk.inodes, WithoutFile(dirs, p, name, r), p, name, r);
    ShrinksLook(inodes0, dirs, disk.inodes, WithoutFile(dirs, p, name, r), contents, names, name);
  }

  lemma EnteredIn(inodes: seq<InodeRec>, dirs: Tree, p: int, name: seq<byte>, r: int)
    requires Entered(inodes, dirs, p, name, r)
    ensures 0 <= p < |inodes| && inodes[p].isDir && Child(inodes, dirs, p, name) == r
  {
  }

  /** As `FilesOk`, but nothing is said of the content of inode `but`. */
  ghost predicate FilesBut(d: seq<Block>, w: World, inodes: seq<InodeRec>, contents: seq<seq<byte>>, but: int) {
    && |contents| == |inodes| == |w.files| && ROOT_INODE_NUM < |inodes| && inodes[ROOT_INODE_NUM].isDir
    && (forall i :: 0 <= i < |inodes| && !inodes[i].isDir && i != but ==> HasContent(d, inodes[i], w.files[i], contents[i]))
    && (forall i :: 3 <= i < |inodes| && inodes[i].inUse ==> inodes[i].links == 1)
    && !inodes[0].inUse && !inodes[1].inUse
  }

  /** The state after a call that has run out of room: the directories have their records, and
      every file but inode `but` has its blocks and its content. */
  ghost predicate StateBut(d: seq<Block>, lo: int, head: int, w: World, inodes: seq<InodeRec>, dirs: Tree,
                           contents: seq<seq<byte>>, but: int) {
    && WorldOk(d, lo, head, w) && |w.files| == |inodes|
    && (forall i :: 0 <= i < |inodes| && i != but ==> FileOk(d, inodes[i], w.files[i]))
    && NamespaceOk(d, w, inodes, dirs) && FilesBut(d, w, inodes, contents, but)
  }

  ghost predicate InOrderBut(disk: Disk, dirs: Tree, contents: seq<seq<byte>>, but: int)
    reads disk, disk.store
  {
    && TableOk(disk) && FirstInoOk(disk.inodes, disk.firstIno) && |disk.inodes| < TWO63
    && StateBut(disk.D(), disk.inodeBlocks + 1, disk.freelistHead, disk.w, disk.inodes, dirs, contents, but)
  }

  /** What is seen at every path but `names` stays. */
  ghost predicate OthersSeen(inodes: seq<InodeRec>, dirs: Tree, contents: seq<seq<byte>>,
                             inodes': seq<InodeRec>, dirs': Tree, contents': seq<seq<byte>>, names: seq<seq<byte>>) {
    forall q :: Plain(q) && q != names ==> Look(inodes', dirs', contents', q) == Look(inodes, dirs, contents, q)
  }

  /** Every inode but one still has its blocks and its content. */
  lemma OthersStand(d0: seq<Block>, lo: int, head0: int, w0: World, inodes0: seq<InodeRec>, contents: seq<seq<byte>>,
                    d: seq<Block>, w: World, inodes: seq<InodeRec>, but: int)
    requires FsOk(d0, lo, head0, w0, inodes0) && FilesOk(d0, w0, inodes0, contents) && OthersKept(d0, w0, d, w, but)
    requires 0 <= but < |inodes0| == |inodes| == |w.files| && inodes == inodes0[but := inodes[but]]
    requires inodes[but].inUse == inodes0[but].inUse && inodes[but].isDir == inodes0[but].isDir
    requires inodes[but].links == inodes0[but].links
    ensures forall i :: 0 <= i < |inodes| && i != but ==> FileOk(d, inodes[i], w.files[i])
    ensures FilesBut(d, w, inodes, contents, but)
  {
    hide FsOk, HasContent, OthersKept, FileOk;
    forall i | 0 <= i < |inodes| && i != but
      ensures FileOk(d, inodes[i], w.files[i])
      ensures !inodes[i].isDir ==> HasContent(d, inodes[i], w.files[i], contents[i])
    {
      FsInode(d0, lo, head0, w0, inodes0, i);
      OtherFileKept(d0, lo, head0, w0, d, w, but, i, inodes[i], contents[i]);
    }
  }

  /** The state after the file at `names` has been written partly. */
  lemma WriteStopped(d0: seq<Block>, lo: int, head0: int, w0: World, inodes0: seq<InodeRec>, dirs: Tree,
                     contents: seq<seq<byte>>, d: seq<Block>, head: int, w: World, inodes: seq<InodeRec>,
                     names: seq<seq<byte>>, inum: int, data: seq<byte>, off: int, c: seq<byte>)
    requires StateOk(d0, lo, head0, w0, inodes0, dirs, contents) && Plain(names) && inum == InodeAt(inodes0, dirs, names)
    requires 0 <= inum < |inodes0| == |inodes| && !inodes0[inum].isDir
    requires WrittenPartly(d0, w0, inodes0, d, lo, head, w, inodes, inum, data, off, c)
    ensures StateBut(d, lo, head, w, inodes, dirs, contents, inum)
    ensures OthersSeen(inodes0, dirs, contents, inodes, dirs, contents, names)
    ensures inodes == inodes0[inum := inodes[inum]]
    ensures inodes[inum].inUse == inodes0[inum].inUse && inodes[inum].isDir == inodes0[inum].isDir
  {
    hide WorldOk, FsOk, NamespaceOk, TreeOk, FilesOk, FilesBut, HasContent, OthersKept, NumFree, Cost, Fits,
         InodeAt, Look,
         Plain, Leftover, FileOk, Overlay, BlocksFor;
    StateParts(d0, lo, head0, w0, inodes0, dirs, contents);
    NamedInUse(d0, w0, inodes0, dirs, PathOf(names));
    AtIs(inodes0, dirs, names);
    var r :| r < |data| && Written(d0, w0, inodes0, d, lo, head, w, inodes, inum, data, off, c, r);
    Attributes(inodes0[inum], inodes[inum]);
    SameCount(d0, w0, d, w, inum);
    NamespaceKept(d0, lo, head0, w0, inodes0, dirs, d, w, inodes, inum);
    OthersStand(d0, lo, head0, w0, inodes0, contents, d, w, inodes, inum);
    forall q | Plain(q) && q != names ensures Look(inodes, dirs, contents, q) == Look(inodes0, dirs, contents, q) {
      LookChanged(inodes0, inodes, dirs, contents, contents[inum], names, q);
      assert contents[inum := contents[inum]] == contents;
    }
  }

  /** The state after a name could not be entered in directory `p`. */
  lemma CreateStopped(d0: seq<Block>, lo: int, head0: int, w0: World, inodes: seq<InodeRec>, dirs: Tree,
                      contents: seq<seq<byte>>, d: seq<Block>, head: int, w: World, p: int)
    requires StateOk(d0, lo, head0, w0, inodes, dirs, contents) && WorldOk(d, lo, head, w)
    requires OthersKept(d0, w0, d, w, p) && NamespaceOk(d, w, inodes, dirs) && 0 <= p < |inodes|
    ensures StateBut(d, lo, head, w, inodes, dirs, contents, p)
  {
    hide WorldOk, FsOk, NamespaceOk, TreeOk, FilesOk, FilesBut, OthersKept, FileOk;
    StateParts(d0, lo, head0, w0, inodes, dirs, contents);
    SameCount(d0, w0, d, w, p);
    OthersStand(d0, lo, head0, w0, inodes, contents, d, w, inodes, p);
  }

  /** The state after a directory has been entered that does not get its own entries. */
  lemma DirStopped(d0: seq<Block>, lo: int, head0: int, w0: World, inodes0: seq<InodeRec>, dirs: Tree,
                   contents: seq<seq<byte>>, d: seq<Block>, head: int, w: World, inodes: seq<InodeRec>,
                   names: seq<seq<byte>>, name: seq<byte>, r: int)
    requires StateOk(d0, lo, head0, w0, inodes0, dirs, contents) && Plain(names + [name])
    requires InodeAt(inodes0, dirs, names + [name]) == -1
    requires DirStarted(d0, w0, inodes0, dirs, d, lo, head, w, inodes, InodeAt(inodes0, dirs, names), name, r)
    ensures
      var dirs' := WithFile(dirs, InodeAt(inodes0, dirs, names), name, r);
      && StateBut(d, lo, head, w, inodes, dirs', contents, -1)
      && Becomes(inodes0, dirs, contents, inodes, dirs', contents, names + [name], Dir)
  {
    hide WorldOk, FsOk, NamespaceOk, TreeOk, FilesOk, OthersKept, Plain, LookupIn, Entries, Sprouts, Becomes, NameOf,
         Added, ParentIndex, Parent, FileName, Child, DirAttributes, PathOf, DirOk, WithFile, UniqueNames, NamesUsed,
         InodeAt, Look, FilesBut, FileOk, Created, Unnamed;
    NewPlace(d0, lo, head0, w0, inodes0, dirs, contents, inodes, names, name, r);
    var p := InodeAt(inodes0, dirs, names);
    WithSize(dirs, p, name, r);
    AttributesKept(inodes0[p], inodes[p]);
    LinksKept(inodes0[p], inodes[p]);
    CreatedFiles(d0, lo, head0, w0, inodes0, contents, d, w, inodes, p, r, true);
    AllStand(d, lo, head, w, inodes, contents);
    CreateSprouts(inodes0, dirs, inodes, p, name, r);
    SproutsLook(inodes0, dirs, inodes, WithFile(dirs, p, name, r), contents, names, name, r, true, false);
  }

  lemma AllStand(d: seq<Block>, lo: int, head: int, w: World, inodes: seq<InodeRec>, contents: seq<seq<byte>>)
    requires FsOk(d, lo, head, w, inodes) && FilesOk(d, w, inodes, contents)
    ensures WorldOk(d, lo, head, w) && |w.files| == |inodes| && FilesBut(d, w, inodes, contents, -1)
    ensures forall i :: 0 <= i < |inodes| ==> FileOk(d, inodes[i], w.files[i])
  {
    hide WorldOk, FileOk, HasContent;
  }
}
