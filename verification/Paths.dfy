/** Path names: splitting off the last component, and resolving a path to an inode. */
module Paths {
  import opened Blocks
  import opened Ownership
  import opened Disk
  import opened Lookup
  import opened Inodes
  import opened Records
  import opened Listings
  import opened Directory

  const ROOT_INODE_NUM: int := 2
  const SLASH: byte := 47

  /** The last slash before the last character, or -1: it ends the parent path. */
  function LastSlash(path: seq<byte>, i: int): (index: int)
    requires -1 <= i < |path|
    ensures -1 <= index <= i && (index >= 0 ==> path[index] == SLASH && index != |path| - 1)
    ensures forall j :: index < j <= i && j != |path| - 1 ==> path[j] != SLASH
    decreases i + 1
  {
    if i < 0 then -1
    else if path[i] == SLASH && i != |path| - 1 then i
    else LastSlash(path, i - 1)
  }

  function ParentIndex(path: seq<byte>): (index: int)
    ensures -1 <= index < |path| - 1 || (path == [] && index == -1)
  {
    LastSlash(path, |path| - 1)
  }

  /** The parent path, when there is one. */
  function Parent(path: seq<byte>): (p: seq<byte>)
    requires ParentIndex(path) >= 0
    ensures |p| < |path|
  {
    if ParentIndex(path) == 0 then path[..1] else path[..ParentIndex(path)]
  }

  /** The last component, without a trailing slash. */
  function FileName(path: seq<byte>): seq<byte>
    requires ParentIndex(path) >= 0
  {
    path[ParentIndex(path) + 1..if path[|path| - 1] == SLASH then |path| - 1 else |path|]
  }

  method GetLastIndexOfParentPath(path: seq<byte>) returns (index: int)
    ensures index == ParentIndex(path)
  {
    var i := |path| - 1;
    while i >= 0
      invariant -1 <= i < |path|
      invariant LastSlash(path, |path| - 1) == LastSlash(path, i)
    {
      if path[i] == SLASH && i != |path| - 1 {
        return i;
      }
      i := i - 1;
    }
    return -1;
  }

  method CopyParentPath(path: seq<byte>) returns (ok: bool, buffer: seq<byte>)
    ensures ok == (ParentIndex(path) >= 0)
    ensures ok ==> buffer == Parent(path)
  {
    var index := GetLastIndexOfParentPath(path);
    if index == -1 {
      return false, [];
    }
    if index == 0 {
      return true, path[..1];
    }
    return true, path[..index];
  }

  method CopyFileName(path: seq<byte>) returns (ok: bool, buffer: seq<byte>)
    ensures ok == (ParentIndex(path) >= 0)
    ensures ok ==> buffer == FileName(path)
  {
    var start := GetLastIndexOfParentPath(path);
    var end := |path|;
    if start == -1 {
      return false, [];
    }
    start := start + 1;
    if path[end - 1] == SLASH {
      end := end - 1;
    }
    return true, path[start..end];
  }

  /** The path without one trailing slash. */
  function Stripped(path: seq<byte>): seq<byte> {
    if path != [] && path[|path| - 1] == SLASH then path[..|path| - 1] else path
  }

  /** Parent and file name, joined by a slash, are the path again; the file name has no
      slash, and the parent path is strictly shorter. */
  lemma SplitRebuilds(path: seq<byte>)
    requires ParentIndex(path) >= 0
    ensures (if ParentIndex(path) == 0 then [] else Parent(path)) + [SLASH] + FileName(path) == Stripped(path)
    ensures ParentIndex(path) == 0 ==> Parent(path) == [SLASH]
    ensures SLASH !in FileName(path) && |Parent(path)| < |path|
  {
    var i, s := ParentIndex(path), Stripped(path);
    var name := FileName(path);
    assert name == s[i + 1..];
    forall j | 0 <= j < |name| ensures name[j] != SLASH {
      assert name[j] == path[i + 1 + j];
    }
    assert s[..i] == path[..i] && s[i] == SLASH;
    MiddleOf(s, i);
    if i == 0 {
      assert [] + [SLASH] == [SLASH] && s[..0] == [] && path[..1] == [SLASH];
    }
  }

  lemma MiddleOf(s: seq<byte>, i: int)
    requires 0 <= i < |s|
    ensures s == s[..i] + [s[i]] + s[i + 1..]
  {
  }

  /** A path component: not empty and without slashes. */
  predicate Component(name: seq<byte>) {
    name != [] && SLASH !in name
  }

  predicate Components(names: seq<seq<byte>>) {
    forall i :: 0 <= i < |names| ==> Component(names[i])
  }

  /** The canonical absolute path with these components, "/" for none. */
  function Joined(names: seq<seq<byte>>): seq<byte> {
    if names == [] then [] else [SLASH] + names[0] + Joined(names[1..])
  }

  function PathOf(names: seq<seq<byte>>): seq<byte> {
    if names == [] then [SLASH] else Joined(names)
  }

  lemma {:induction false} JoinedSnoc(names: seq<seq<byte>>, name: seq<byte>)
    ensures Joined(names + [name]) == Joined(names) + [SLASH] + name
  {
    if names == [] {
      assert Joined([name]) == [SLASH] + name + Joined([name][1..]);
    } else {
      JoinedSnoc(names[1..], name);
      assert (names + [name])[1..] == names[1..] + [name];
    }
  }

  /** Splitting a canonical path takes off its last component, with or without a slash
      behind it. */
  lemma SplitCanonical(names: seq<seq<byte>>, name: seq<byte>, tail: seq<byte>)
    requires Component(name) && (tail == [] || tail == [SLASH])
    ensures
      var path := PathOf(names + [name]) + tail;
      && ParentIndex(path) >= 0 && FileName(path) == name && Parent(path) == PathOf(names) && path != [SLASH]
  {
    hide Joined;
    JoinedSnoc(names, name);
    var path := PathOf(names + [name]) + tail;
    JoinedEmpty(names);
    LastIs(path, |Joined(names)|);
    assert path == Joined(names) + [SLASH] + name + tail;
    assert path[|Joined(names)| + 1..|Joined(names)| + 1 + |name|] == name;
    assert path[..|Joined(names)|] == Joined(names);
  }

  lemma RootPath()
    ensures PathOf([]) + [] == [SLASH]
  {
  }

  lemma JoinedEmpty(names: seq<seq<byte>>)
    ensures |Joined(names)| == 0 <==> names == []
  {
  }

  lemma LastIs(path: seq<byte>, index: int)
    requires 0 <= index < |path| - 1 && path[index] == SLASH
    requires forall j :: index < j < |path| - 1 ==> path[j] != SLASH
    ensures ParentIndex(path) == index
  {
  }

  /** The directories agree with the inode table; in each the names are different and name
      inodes in use; inodes that are not in use are zeroed. */
  ghost predicate NamespaceOk(d: seq<Block>, w: World, inodes: seq<InodeRec>, dirs: seq<seq<seq<Record>>>)
  {
    && |dirs| == |inodes| == |w.files| && ROOT_INODE_NUM < |inodes| && inodes[ROOT_INODE_NUM].inUse
    && (forall i :: 0 <= i < |inodes| && inodes[i].isDir ==>
          DirOk(d, inodes[i], w.files[i], dirs[i]) && UniqueNames(Entries(dirs[i])))
    && (forall i, name :: 0 <= i < |inodes| && inodes[i].isDir ==> NamesUsed(inodes, dirs[i], name))
    && (forall i :: 3 <= i < |inodes| && !inodes[i].inUse ==> inodes[i] == ZeroInode())
  }

  predicate NamesUsed(inodes: seq<InodeRec>, dir: seq<seq<Record>>, name: seq<byte>) {
    LookupIn(Entries(dir), name).Some? ==>
      var i := LookupIn(Entries(dir), name).value;
      0 <= i < |inodes| && inodes[i].inUse
  }

  /** One step of a walk: the inode with the name in the directory, or -1. */
  function Child(inodes: seq<InodeRec>, dirs: seq<seq<seq<Record>>>, ino: int, name: seq<byte>): int {
    if 0 <= ino < |inodes| == |dirs| && inodes[ino].isDir && LookupIn(Entries(dirs[ino]), name).Some?
    then LookupIn(Entries(dirs[ino]), name).value
    else -1
  }

  /** The walk over the components of a path, first to last, from a directory. */
  function WalkFrom(inodes: seq<InodeRec>, dirs: seq<seq<seq<Record>>>, ino: int, names: seq<seq<byte>>): int
    decreases |names|
  {
    if names == [] || ino == -1 then ino
    else WalkFrom(inodes, dirs, Child(inodes, dirs, ino, names[0]), names[1..])
  }

  /** What the recursive resolution computes, for any string. */
  function NameOf(inodes: seq<InodeRec>, dirs: seq<seq<seq<Record>>>, path: seq<byte>): int
    decreases |path|
  {
    if path == [SLASH] then ROOT_INODE_NUM
    else if ParentIndex(path) < 0 then -1
    else
      var parent := NameOf(inodes, dirs, Parent(path));
      if parent == -1 then -1 else Child(inodes, dirs, parent, FileName(path))
  }

  lemma {:induction false} WalkSnoc(inodes: seq<InodeRec>, dirs: seq<seq<seq<Record>>>, ino: int,
                                    names: seq<seq<byte>>, name: seq<byte>)
    ensures
      var parent := WalkFrom(inodes, dirs, ino, names);
      WalkFrom(inodes, dirs, ino, names + [name]) ==
        if parent == -1 then -1 else Child(inodes, dirs, parent, name)
    decreases |names|
  {
    hide Child;
    if names == [] {
      assert (names + [name])[1..] == [];
    } else {
      assert (names + [name])[1..] == names[1..] + [name];
      if ino != -1 {
        WalkSnoc(inodes, dirs, Child(inodes, dirs, ino, names[0]), names[1..], name);
      }
    }
  }

  /** For a canonical path, resolving the parent first gives the walk from the root over
      the components; one trailing slash changes nothing. */
  lemma {:induction false} ResolvesByWalking(inodes: seq<InodeRec>, dirs: seq<seq<seq<Record>>>,
                                             names: seq<seq<byte>>, tail: seq<byte>)
    requires Components(names) && (tail == [] || (names != [] && tail == [SLASH]))
    ensures NameOf(inodes, dirs, PathOf(names) + tail) == WalkFrom(inodes, dirs, ROOT_INODE_NUM, names)
    decreases |names|
  {
    hide Child, PathOf, Parent, FileName, ParentIndex;
    if names == [] {
      RootPath();
    } else {
      var n := |names| - 1;
      var init := names[..n];
      assert names == init + [names[n]];
      assert Component(names[n]);
      SplitCanonical(init, names[n], tail);
      ResolvesByWalking(inodes, dirs, init, []);
      assert PathOf(init) + [] == PathOf(init);
      WalkSnoc(inodes, dirs, ROOT_INODE_NUM, init, names[n]);
    }
  }

  /** Only absolute paths resolve; "/" is inode 2. */
  lemma {:induction false} RelativePath(inodes: seq<InodeRec>, dirs: seq<seq<seq<Record>>>, path: seq<byte>)
    ensures path == [] || path[0] != 47 ==> NameOf(inodes, dirs, path) == -1
    ensures path == [47] ==> NameOf(inodes, dirs, path) == 2
    decreases |path|
  {
    hide Child;
    if ParentIndex(path) >= 0 {
      ParentShorter(path);
      SplitRebuilds(path);
      assert Parent(path)[0] == path[0];
      RelativePath(inodes, dirs, Parent(path));
    }
  }

  /** Resolves a path: the parent first, then the name in it. */
  method NameI(disk: Disk, path: seq<byte>, ghost dirs: seq<seq<seq<Record>>>) returns (inum: int)
    requires TableOk(disk)
    requires FsOk(disk.D(), disk.inodeBlocks + 1, disk.freelistHead, disk.w, disk.inodes)
    requires NamespaceOk(disk.D(), disk.w, disk.inodes, dirs)
    ensures inum == NameOf(disk.inodes, dirs, path)
    ensures inum == -1 || 0 <= inum < |disk.inodes|
    decreases |path|
  {
    hide FsOk, DirOk, Entries, LookupIn, InodeOk, Packed, ReadInum, ParentIndex, Parent, FileName, Pack;
    if |path| == 1 && path[0] == SLASH {
      return ROOT_INODE_NUM;
    }
    var ok, parentPath := CopyParentPath(path);
    if !ok {
      return -1;
    }
    ParentShorter(path);
    var parent := NameI(disk, parentPath, dirs);
    if parent == -1 {
      return -1;
    }
    var node := GetInode(disk, parent);
    FsInode(disk.D(), disk.inodeBlocks + 1, disk.freelistHead, disk.w, disk.inodes, parent);
    var name;
    ok, name := CopyFileName(path);
    if !ok {
      return -1;
    }
    var offset, block, p := GetFilePositionInDir(disk, name, node, parent, dirs[parent]);
    SearchRefines(dirs[parent], name);
    if offset == -1 {
      return -1;
    }
    ghost var k := FindBlock(dirs[parent], name);
    assert NamesUsed(disk.inodes, dirs[parent], name);
    ReadRecord(block, dirs[parent][k], Find(dirs[parent][k], name));
    inum := ReadInum(block, offset);
  }

  lemma ParentShorter(path: seq<byte>)
    requires ParentIndex(path) >= 0
    ensures |Parent(path)| < |path|
  {
  }
}
