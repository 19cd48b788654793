/** The directories form one tree, so a path names one file and a file has one path. */
module Trees {
  import opened Blocks
  import opened Ownership
  import opened Records
  import opened Listings
  import opened Paths
  import opened Namespace

  predicate Proper(name: seq<byte>) {
    name != DOT && name != DOT_DOT
  }

  /** The components of an absolute path without "." and "..". */
  predicate Plain(names: seq<seq<byte>>) {
    forall i :: 0 <= i < |names| ==> Component(names[i]) && CString(names[i]) && Proper(names[i])
  }

  lemma PlainSnoc(names: seq<seq<byte>>, name: seq<byte>)
    ensures Plain(names + [name]) <==> Plain(names) && Component(name) && CString(name) && Proper(name)
  {
    hide Component, CString, Proper;
    if Plain(names + [name]) {
      assert (names + [name])[|names|] == name;
      forall i | 0 <= i < |names| ensures Component(names[i]) && CString(names[i]) && Proper(names[i]) {
        assert (names + [name])[i] == names[i];
      }
    }
  }

  /** Inode `i` has `name` in directory `p`, and the name is not "." or "..". */
  ghost predicate Entered(inodes: seq<InodeRec>, dirs: Tree, p: int, name: seq<byte>, i: int) {
    Proper(name) && i != -1 && Child(inodes, dirs, p, name) == i
  }

  /** Every inode but the root is entered at most once; every directory has "." for itself and
      ".." for the directory that it is entered in. */
  ghost predicate TreeOk(inodes: seq<InodeRec>, dirs: Tree) {
    && |dirs| == |inodes|
    && (forall p, name, i :: Entered(inodes, dirs, p, name, i) ==> Component(name) && CString(name))
    && (forall p, name, q, other, i ::
          Entered(inodes, dirs, p, name, i) && Entered(inodes, dirs, q, other, i) ==> p == q && name == other)
    && (forall p, name :: !Entered(inodes, dirs, p, name, ROOT_INODE_NUM))
    && (forall i :: 0 <= i < |inodes| && inodes[i].isDir ==>
          Child(inodes, dirs, i, DOT) == i && UpOk(inodes, dirs, i, Child(inodes, dirs, i, DOT_DOT)))
  }

  ghost predicate UpOk(inodes: seq<InodeRec>, dirs: Tree, i: int, p: int) {
    if i == ROOT_INODE_NUM then p == ROOT_INODE_NUM else exists name :: Entered(inodes, dirs, p, name, i)
  }

  /** The inode at a path. */
  function InodeAt(inodes: seq<InodeRec>, dirs: Tree, names: seq<seq<byte>>): int {
    NameOf(inodes, dirs, PathOf(names))
  }

  lemma AtLast(inodes: seq<InodeRec>, dirs: Tree, names: seq<seq<byte>>, name: seq<byte>)
    requires Component(name)
    ensures InodeAt(inodes, dirs, names + [name]) ==
      if InodeAt(inodes, dirs, names) == -1 then -1 else Child(inodes, dirs, InodeAt(inodes, dirs, names), name)
    ensures
      var path := PathOf(names + [name]);
      && path != [SLASH] && ParentIndex(path) >= 0 && Parent(path) == PathOf(names) && FileName(path) == name
  {
    hide ParentIndex, Parent, FileName, Child, PathOf;
    SplitCanonical(names, name, []);
    assert PathOf(names + [name]) + [] == PathOf(names + [name]);
  }

  lemma AtRoot(inodes: seq<InodeRec>, dirs: Tree)
    ensures InodeAt(inodes, dirs, []) == ROOT_INODE_NUM
  {
  }

  lemma Snoc<T>(s: seq<T>)
    requires s != []
    ensures s == s[..|s| - 1] + [s[|s| - 1]]
  {
  }

  /** Two plain paths that resolve to the same inode are the same path. */
  lemma {:induction false} SamePath(inodes: seq<InodeRec>, dirs: Tree, a: seq<seq<byte>>, b: seq<seq<byte>>)
    requires TreeOk(inodes, dirs) && Plain(a) && Plain(b)
    requires InodeAt(inodes, dirs, a) == InodeAt(inodes, dirs, b) != -1
    ensures a == b
    decreases |a|
  {
    hide InodeAt, Child, TreeOk, Plain, Component, CString, Proper;
    AtRoot(inodes, dirs);
    if a != [] {
      Snoc(a);
      PlainSnoc(a[..|a| - 1], a[|a| - 1]);
      AtLast(inodes, dirs, a[..|a| - 1], a[|a| - 1]);
    }
    if b != [] {
      Snoc(b);
      PlainSnoc(b[..|b| - 1], b[|b| - 1]);
      AtLast(inodes, dirs, b[..|b| - 1], b[|b| - 1]);
    }
    if a != [] && b != [] {
      OneEntry(inodes, dirs, InodeAt(inodes, dirs, a[..|a| - 1]), a[|a| - 1], InodeAt(inodes, dirs, b[..|b| - 1]), b[|b| - 1]);
      SamePath(inodes, dirs, a[..|a| - 1], b[..|b| - 1]);
    } else if a != [] {
      NotRoot(inodes, dirs, InodeAt(inodes, dirs, a[..|a| - 1]), a[|a| - 1]);
    } else if b != [] {
      NotRoot(inodes, dirs, InodeAt(inodes, dirs, b[..|b| - 1]), b[|b| - 1]);
    }
  }

  lemma OneEntry(inodes: seq<InodeRec>, dirs: Tree, p: int, name: seq<byte>, q: int, other: seq<byte>)
    requires TreeOk(inodes, dirs) && Proper(name) && Proper(other)
    requires Child(inodes, dirs, p, name) == Child(inodes, dirs, q, other) != -1
    ensures p == q && name == other
  {
    hide Child;
    assert Entered(inodes, dirs, p, name, Child(inodes, dirs, p, name));
    assert Entered(inodes, dirs, q, other, Child(inodes, dirs, p, name));
  }

  lemma NotRoot(inodes: seq<InodeRec>, dirs: Tree, p: int, name: seq<byte>)
    requires TreeOk(inodes, dirs) && Proper(name)
    ensures Child(inodes, dirs, p, name) != ROOT_INODE_NUM
  {
    assert !Entered(inodes, dirs, p, name, ROOT_INODE_NUM);
  }

  /** What is at a path. */
  datatype View = Absent | Dir | File(bytes: seq<byte>)

  function Look(inodes: seq<InodeRec>, dirs: Tree, contents: seq<seq<byte>>, names: seq<seq<byte>>): View {
    var i := InodeAt(inodes, dirs, names);
    if !(0 <= i < |inodes| == |contents|) then Absent
    else if inodes[i].isDir then Dir
    else File(contents[i])
  }

  /** Resolution depends only on which inodes are directories, and their records. */
  lemma {:induction false} NameOfSame(inodes: seq<InodeRec>, inodes': seq<InodeRec>, dirs: Tree, q: seq<byte>)
    requires |inodes'| == |inodes| && forall i :: 0 <= i < |inodes| ==> inodes'[i].isDir == inodes[i].isDir
    ensures NameOf(inodes', dirs, q) == NameOf(inodes, dirs, q)
    decreases |q|
  {
    hide ParentIndex, Parent, FileName, LookupIn, Entries;
    if q != [SLASH] && ParentIndex(q) >= 0 {
      ParentShorter(q);
      NameOfSame(inodes, inodes', dirs, Parent(q));
    }
  }

  lemma ChildSame(inodes: seq<InodeRec>, inodes': seq<InodeRec>, dirs: Tree, p: int, name: seq<byte>)
    requires |inodes'| == |inodes| && forall i :: 0 <= i < |inodes| ==> inodes'[i].isDir == inodes[i].isDir
    ensures Child(inodes', dirs, p, name) == Child(inodes, dirs, p, name)
  {
  }

  lemma TreeSame(inodes: seq<InodeRec>, inodes': seq<InodeRec>, dirs: Tree)
    requires TreeOk(inodes, dirs)
    requires |inodes'| == |inodes| && forall i :: 0 <= i < |inodes| ==> inodes'[i].isDir == inodes[i].isDir
    ensures TreeOk(inodes', dirs)
  {
    hide Child;
    forall p, name ensures Child(inodes', dirs, p, name) == Child(inodes, dirs, p, name) {
      ChildSame(inodes, inodes', dirs, p, name);
    }
    forall p, name, i ensures Entered(inodes', dirs, p, name, i) == Entered(inodes, dirs, p, name, i) {
    }
    forall i | 0 <= i < |inodes| && inodes[i].isDir && i != ROOT_INODE_NUM
      ensures UpOk(inodes', dirs, i, Child(inodes', dirs, i, DOT_DOT))
    {
      var name :| Entered(inodes, dirs, Child(inodes, dirs, i, DOT_DOT), name, i);
      assert Entered(inodes', dirs, Child(inodes, dirs, i, DOT_DOT), name, i);
    }
  }

  /** Changing the bytes of the file at one path changes what is seen there and nowhere else. */
  lemma LookChanged(inodes: seq<InodeRec>, inodes': seq<InodeRec>, dirs: Tree, contents: seq<seq<byte>>, c: seq<byte>,
                    names: seq<seq<byte>>, q: seq<seq<byte>>)
    requires TreeOk(inodes, dirs) && Plain(names) && Plain(q) && |contents| == |inodes| == |inodes'|
    requires forall i :: 0 <= i < |inodes| ==> inodes'[i].isDir == inodes[i].isDir
    requires
      var r := InodeAt(inodes, dirs, names);
      0 <= r < |inodes| && !inodes[r].isDir
    ensures Look(inodes', dirs, contents[InodeAt(inodes, dirs, names) := c], q) ==
      if q == names then File(c) else Look(inodes, dirs, contents, q)
  {
    hide TreeOk;
    NameOfSame(inodes, inodes', dirs, PathOf(q));
    if InodeAt(inodes, dirs, q) == InodeAt(inodes, dirs, names) {
      SamePath(inodes, dirs, q, names);
    }
  }

  /** A new inode `r` has been entered as `name` in directory `p`: a file, or a directory, with
      its own two entries or still without. */
  ghost predicate Sprouts(inodes: seq<InodeRec>, dirs: Tree, inodes': seq<InodeRec>, dirs': Tree,
                        p: int, name: seq<byte>, r: int, isDir: bool, dots: bool) {
    && |dirs| == |inodes| == |inodes'| == |dirs'| && 0 <= r < |inodes| && r != ROOT_INODE_NUM && p != r
    && 0 <= p < |inodes| && inodes[p].isDir && !inodes[r].isDir
    && Unnamed(inodes, dirs, r) && Child(inodes, dirs, p, name) == -1
    && (forall i :: 0 <= i < |inodes| ==> inodes'[i].isDir == if i == r then isDir else inodes[i].isDir)
    && (forall i, other :: Child(inodes', dirs', i, other) ==
          if i == r then (if !dots then -1 else if other == DOT then r else if other == DOT_DOT then p else -1)
          else if i == p && other == name then r
          else Child(inodes, dirs, i, other))
  }

  lemma SproutsEntries(inodes: seq<InodeRec>, dirs: Tree, inodes': seq<InodeRec>, dirs': Tree,
                     p: int, name: seq<byte>, r: int, isDir: bool, dots: bool, q: int, other: seq<byte>, i: int)
    requires Sprouts(inodes, dirs, inodes', dirs', p, name, r, isDir, dots) && Proper(name)
    ensures Entered(inodes', dirs', q, other, i) <==>
      Entered(inodes, dirs, q, other, i) || (q == p && other == name && i == r)
    ensures !Entered(inodes, dirs, q, other, r)
  {
  }

  /** The new entry keeps the tree. */
  lemma SproutsTree(inodes: seq<InodeRec>, dirs: Tree, inodes': seq<InodeRec>, dirs': Tree,
                  p: int, name: seq<byte>, r: int, isDir: bool, dots: bool)
    requires TreeOk(inodes, dirs) && Sprouts(inodes, dirs, inodes', dirs', p, name, r, isDir, dots)
    requires Proper(name) && Component(name) && CString(name) && dots == isDir
    ensures TreeOk(inodes', dirs')
  {
    hide Child, Unnamed, Component, CString;
    forall q, other, i
      ensures Entered(inodes', dirs', q, other, i) <==>
        Entered(inodes, dirs, q, other, i) || (q == p && other == name && i == r)
      ensures !Entered(inodes, dirs, q, other, r)
    {
      SproutsEntries(inodes, dirs, inodes', dirs', p, name, r, isDir, dots, q, other, i);
    }
    forall i | 0 <= i < |inodes'| && inodes'[i].isDir
      ensures Child(inodes', dirs', i, DOT) == i && UpOk(inodes', dirs', i, Child(inodes', dirs', i, DOT_DOT))
    {
      if i == r {
        assert Entered(inodes', dirs', p, name, r);
      } else if i != ROOT_INODE_NUM {
        var other :| Entered(inodes, dirs, Child(inodes, dirs, i, DOT_DOT), other, i);
        assert Entered(inodes', dirs', Child(inodes, dirs, i, DOT_DOT), other, i);
      }
    }
  }

  lemma SproutsStep(inodes: seq<InodeRec>, dirs: Tree, inodes': seq<InodeRec>, dirs': Tree,
                  p: int, name: seq<byte>, r: int, isDir: bool, dots: bool, i: int, other: seq<byte>)
    requires Sprouts(inodes, dirs, inodes', dirs', p, name, r, isDir, dots) && Proper(other)
    ensures Child(inodes', dirs', i, other) ==
      if i == r then -1 else if i == p && other == name then r else Child(inodes, dirs, i, other)
    ensures Child(inodes, dirs, i, other) != r && Child(inodes, dirs, p, name) == -1
    ensures r != -1 && r != ROOT_INODE_NUM && p != -1 && p != r
  {
    hide Child;
  }

  /** The new path resolves to the new inode; every other path resolves as before. */
  lemma {:induction false} SproutsAt(inodes: seq<InodeRec>, dirs: Tree, inodes': seq<InodeRec>, dirs': Tree,
                                   p: seq<seq<byte>>, name: seq<byte>, r: int, isDir: bool, dots: bool, q: seq<seq<byte>>)
    requires TreeOk(inodes, dirs) && Plain(p) && Plain(q) && Proper(name) && Component(name)
    requires Sprouts(inodes, dirs, inodes', dirs', InodeAt(inodes, dirs, p), name, r, isDir, dots)
    ensures InodeAt(inodes, dirs, q) != r
    ensures InodeAt(inodes', dirs', q) == if q == p + [name] then r else InodeAt(inodes, dirs, q)
    decreases |q|
  {
    hide InodeAt, TreeOk, Child, Sprouts, Plain, Component, CString, Proper;
    SproutsStep(inodes, dirs, inodes', dirs', InodeAt(inodes, dirs, p), name, r, isDir, dots, -1, name);
    assert |p + [name]| == |p| + 1;
    AtRoot(inodes, dirs);
    AtRoot(inodes', dirs');
    if q != [] {
      var a, x := q[..|q| - 1], q[|q| - 1];
      Snoc(q);
      PlainSnoc(a, x);
      AtLast(inodes, dirs, a, x);
      AtLast(inodes', dirs', a, x);
      SproutsAt(inodes, dirs, inodes', dirs', p, name, r, isDir, dots, a);
      SproutsStep(inodes, dirs, inodes', dirs', InodeAt(inodes, dirs, p), name, r, isDir, dots, InodeAt(inodes, dirs, a), x);
      if InodeAt(inodes, dirs, a) == InodeAt(inodes, dirs, p) {
        SamePath(inodes, dirs, a, p);
      }
      if a == p + [name] {
        AtLast(inodes, dirs, p, name);
        SproutsStep(inodes, dirs, inodes', dirs', InodeAt(inodes, dirs, p), name, r, isDir, dots, r, x);
      }
      SnocEqual(a, x, p, name);
    }
  }

  lemma SnocEqual<T>(a: seq<T>, x: T, b: seq<T>, y: T)
    ensures a + [x] == b + [y] <==> a == b && x == y
  {
    if a + [x] == b + [y] {
      assert |a + [x]| == |b + [y]|;
      assert (a + [x])[..|a|] == a && (b + [y])[..|b|] == b;
      assert (a + [x])[|a|] == x && (b + [y])[|b|] == y;
    }
  }

  /** The entry `name` for inode `r` has been taken out of directory `p`. */
  ghost predicate Shrinks(inodes: seq<InodeRec>, dirs: Tree, inodes': seq<InodeRec>, dirs': Tree,
                          p: int, name: seq<byte>, r: int) {
    && |dirs| == |inodes| == |inodes'| == |dirs'| && Entered(inodes, dirs, p, name, r) && Childless(inodes, dirs, r)
    && (forall i :: 0 <= i < |inodes| ==> inodes'[i].isDir == (i != r && inodes[i].isDir))
    && (forall i, other :: Child(inodes', dirs', i, other) ==
          if i == r || (i == p && other == name) then -1 else Child(inodes, dirs, i, other))
  }

  /** Inode `r` has no entries but "." and "..". */
  ghost predicate Childless(inodes: seq<InodeRec>, dirs: Tree, r: int) {
    forall name :: Proper(name) ==> Child(inodes, dirs, r, name) == -1
  }

  lemma ShrinksEntries(inodes: seq<InodeRec>, dirs: Tree, inodes': seq<InodeRec>, dirs': Tree,
                       p: int, name: seq<byte>, r: int, q: int, other: seq<byte>, i: int)
    requires TreeOk(inodes, dirs) && Shrinks(inodes, dirs, inodes', dirs', p, name, r)
    ensures Entered(inodes', dirs', q, other, i) <==> Entered(inodes, dirs, q, other, i) && i != r
    ensures !Entered(inodes, dirs, r, other, i)
  {
    hide Child, UpOk, Component, CString;
    if Proper(other) && i != -1 && Child(inodes, dirs, q, other) == i {
      assert Entered(inodes, dirs, q, other, i);
    }
  }

  /** Taking out an entry without entries of its own keeps the tree. */
  lemma ShrinksTree(inodes: seq<InodeRec>, dirs: Tree, inodes': seq<InodeRec>, dirs': Tree, p: int, name: seq<byte>, r: int)
    requires TreeOk(inodes, dirs) && Shrinks(inodes, dirs, inodes', dirs', p, name, r)
    ensures TreeOk(inodes', dirs')
  {
    hide Child, Component, CString;
    forall q, other, i
      ensures Entered(inodes', dirs', q, other, i) <==> Entered(inodes, dirs, q, other, i) && i != r
    {
      ShrinksEntries(inodes, dirs, inodes', dirs', p, name, r, q, other, i);
    }
    forall i | 0 <= i < |inodes'| && inodes'[i].isDir
      ensures Child(inodes', dirs', i, DOT) == i && UpOk(inodes', dirs', i, Child(inodes', dirs', i, DOT_DOT))
    {
      if i != ROOT_INODE_NUM {
        var other :| Entered(inodes, dirs, Child(inodes, dirs, i, DOT_DOT), other, i);
        assert Entered(inodes', dirs', Child(inodes, dirs, i, DOT_DOT), other, i);
      }
    }
  }

  /** The path fails afterwards; every other path resolves as before. */
  lemma {:induction false} ShrinksAt(inodes: seq<InodeRec>, dirs: Tree, inodes': seq<InodeRec>, dirs': Tree,
                                     p: seq<seq<byte>>, name: seq<byte>, q: seq<seq<byte>>)
    requires TreeOk(inodes, dirs) && Plain(p + [name]) && Plain(q)
    requires Shrinks(inodes, dirs, inodes', dirs', InodeAt(inodes, dirs, p), name, InodeAt(inodes, dirs, p + [name]))
    ensures InodeAt(inodes', dirs', q) == if q == p + [name] then -1 else InodeAt(inodes, dirs, q)
    decreases |q|
  {
    hide InodeAt, TreeOk, Child, Plain, Component, CString, Proper;
    var r := InodeAt(inodes, dirs, p + [name]);
    PlainSnoc(p, name);
    AtRoot(inodes, dirs);
    AtRoot(inodes', dirs');
    if q != [] {
      var a, x := q[..|q| - 1], q[|q| - 1];
      Snoc(q);
      PlainSnoc(a, x);
      AtLast(inodes, dirs, a, x);
      AtLast(inodes', dirs', a, x);
      AtLast(inodes, dirs, p, name);
      ShrinksAt(inodes, dirs, inodes', dirs', p, name, a);
      if InodeAt(inodes, dirs, a) == r {
        SamePath(inodes, dirs, a, p + [name]);
      }
      if InodeAt(inodes, dirs, a) == InodeAt(inodes, dirs, p) {
        SamePath(inodes, dirs, a, p);
      }
      SnocEqual(a, x, p, name);
    }
  }

  /** What is seen changes at one path, to `v`. */
  ghost predicate Becomes(inodes: seq<InodeRec>, dirs: Tree, contents: seq<seq<byte>>,
                          inodes': seq<InodeRec>, dirs': Tree, contents': seq<seq<byte>>, names: seq<seq<byte>>, v: View) {
    forall q :: Plain(q) ==>
      Look(inodes', dirs', contents', q) == if q == names then v else Look(inodes, dirs, contents, q)
  }

  lemma SproutsLook(inodes: seq<InodeRec>, dirs: Tree, inodes': seq<InodeRec>, dirs': Tree, contents: seq<seq<byte>>,
                  p: seq<seq<byte>>, name: seq<byte>, r: int, isDir: bool, dots: bool)
    requires TreeOk(inodes, dirs) && Plain(p) && Proper(name) && Component(name) && |contents| == |inodes|
    requires Sprouts(inodes, dirs, inodes', dirs', InodeAt(inodes, dirs, p), name, r, isDir, dots) && contents[r] == []
    ensures Becomes(inodes, dirs, contents, inodes', dirs', contents, p + [name], if isDir then Dir else File([]))
  {
    hide InodeAt, TreeOk, Child, Unnamed;
    forall q | Plain(q)
      ensures Look(inodes', dirs', contents, q) ==
        if q == p + [name] then (if isDir then Dir else File([])) else Look(inodes, dirs, contents, q)
    {
      SproutsAt(inodes, dirs, inodes', dirs', p, name, r, isDir, dots, q);
    }
  }

  lemma ShrinksLook(inodes: seq<InodeRec>, dirs: Tree, inodes': seq<InodeRec>, dirs': Tree, contents: seq<seq<byte>>,
                    p: seq<seq<byte>>, name: seq<byte>)
    requires TreeOk(inodes, dirs) && Plain(p + [name]) && |contents| == |inodes|
    requires 0 <= InodeAt(inodes, dirs, p + [name]) < |contents|
    requires Shrinks(inodes, dirs, inodes', dirs', InodeAt(inodes, dirs, p), name, InodeAt(inodes, dirs, p + [name]))
    ensures Becomes(inodes, dirs, contents, inodes', dirs', contents[InodeAt(inodes, dirs, p + [name]) := []], p + [name], Absent)
  {
    hide InodeAt, TreeOk, Child, Childless, Entered, Plain;
    var r := InodeAt(inodes, dirs, p + [name]);
    forall q | Plain(q)
      ensures Look(inodes', dirs', contents[r := []], q) ==
        if q == p + [name] then Absent else Look(inodes, dirs, contents, q)
    {
      ShrinksAt(inodes, dirs, inodes', dirs', p, name, q);
      if InodeAt(inodes, dirs, q) == r {
        SamePath(inodes, dirs, q, p + [name]);
      }
    }
  }

  lemma ThreeNames(rs: seq<Record>, name: seq<byte>)
    requires LookupIn(rs, DOT).Some? && LookupIn(rs, DOT_DOT).Some? && LookupIn(rs, name).Some? && Proper(name)
    ensures |rs| > 2
  {
    var i, j, k := Find(rs, DOT), Find(rs, DOT_DOT), Find(rs, name);
    assert rs[i].name == DOT && rs[j].name == DOT_DOT && rs[k].name == name;
  }

  lemma ThirdName(rs: seq<Record>) returns (name: seq<byte>)
    requires UniqueNames(rs) && |rs| > 2
    ensures Proper(name) && LookupIn(rs, name).Some?
  {
    var i := if Proper(rs[0].name) then 0 else if Proper(rs[1].name) then 1 else 2;
    assert rs[0].name != rs[1].name && rs[1].name != rs[2].name && rs[0].name != rs[2].name;
    name := rs[i].name;
  }

  /** A directory has more than two records exactly if it has an entry but "." and "..". */
  lemma CountsChildren(inodes: seq<InodeRec>, dirs: Tree, r: int)
    requires TreeOk(inodes, dirs) && 0 <= r < |inodes| && inodes[r].isDir && UniqueNames(Entries(dirs[r]))
    requires forall name :: NamesUsed(inodes, dirs[r], name)
    ensures |Entries(dirs[r])| <= 2 <==> Childless(inodes, dirs, r)
  {
    hide Entries, LookupIn, UniqueNames, UpOk;
    var rs := Entries(dirs[r]);
    assert Child(inodes, dirs, r, DOT_DOT) != -1 by {
      UpNamed(inodes, dirs, r);
    }
    if |rs| > 2 {
      var name := ThirdName(rs);
      assert NamesUsed(inodes, dirs[r], name);
      assert Child(inodes, dirs, r, name) != -1;
    } else {
      forall name | Proper(name) ensures Child(inodes, dirs, r, name) == -1 {
        if LookupIn(rs, name).Some? {
          ThreeNames(rs, name);
        }
      }
    }
  }

  lemma UpNamed(inodes: seq<InodeRec>, dirs: Tree, r: int)
    requires TreeOk(inodes, dirs) && 0 <= r < |inodes| && inodes[r].isDir
    ensures Child(inodes, dirs, r, DOT_DOT) != -1
  {
    hide LookupIn, Entries;
    var p := Child(inodes, dirs, r, DOT_DOT);
    if r != ROOT_INODE_NUM {
      var name :| Entered(inodes, dirs, p, name, r);
    }
  }

  /** An inode without entries has no name but the one it is entered under. */
  lemma SoleEntry(inodes: seq<InodeRec>, dirs: Tree, p: int, name: seq<byte>, r: int)
    requires TreeOk(inodes, dirs) && Entered(inodes, dirs, p, name, r) && Childless(inodes, dirs, r)
    ensures p != r && r != ROOT_INODE_NUM && SoleName(inodes, dirs, r, p, name)
  {
    hide Child, Component, CString, UpOk;
    assert Child(inodes, dirs, p, name) == r;
    forall i, other | i != r && Child(inodes, dirs, i, other) == r ensures i == p && other == name {
      if Proper(other) {
        assert Entered(inodes, dirs, i, other, r);
      } else {
        DotsElsewhere(inodes, dirs, i, other, r);
      }
    }
  }

  lemma DotsElsewhere(inodes: seq<InodeRec>, dirs: Tree, i: int, other: seq<byte>, r: int)
    requires TreeOk(inodes, dirs) && !Proper(other) && i != r && r != -1 && r != ROOT_INODE_NUM
    requires Childless(inodes, dirs, r)
    ensures Child(inodes, dirs, i, other) != r
  {
    hide LookupIn, Entries, Component, CString;
    if 0 <= i < |inodes| && inodes[i].isDir && i != ROOT_INODE_NUM {
      var name :| Entered(inodes, dirs, Child(inodes, dirs, i, DOT_DOT), name, i);
    }
  }
}
