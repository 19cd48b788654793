/** The file system as its callers think of it, and what each call makes of it: which inodes are
    used for what, the records of the directories, the bytes of the files, and how many blocks
    are free. */
module Models {
  import opened Blocks
  import opened Ownership
  import opened BlockMap
  import opened Content
  import opened Writes
  import opened Truncates
  import opened Listings
  import opened Directory
  import opened Paths
  import opened Namespace
  import opened Trees
  import opened Changes

  /** A record without what it says of blocks and sizes. */
  function Shape(rec: InodeRec): InodeRec {
    ZeroInode().(inUse := rec.inUse, isDir := rec.isDir)
  }

  function Shapes(inodes: seq<InodeRec>): (s: seq<InodeRec>)
    ensures |s| == |inodes| && forall i :: 0 <= i < |inodes| ==> s[i] == Shape(inodes[i])
  {
    seq(|inodes|, i requires 0 <= i < |inodes| => Shape(inodes[i]))
  }

  datatype Model = Model(inodes: seq<InodeRec>, dirs: Tree, contents: seq<seq<byte>>, free: int)

  function ModelOf(inodes: seq<InodeRec>, dirs: Tree, contents: seq<seq<byte>>, free: int): Model {
    Model(Shapes(inodes), dirs, contents, free)
  }

  datatype Call =
    | MakeFile(names: seq<seq<byte>>)
    | MakeDir(names: seq<seq<byte>>)
    | Put(names: seq<seq<byte>>, data: seq<byte>, off: int)
    | SetLength(names: seq<seq<byte>>, length: int)
    | Remove(names: seq<seq<byte>>)

  /** What is at each path. */
  type Sight = seq<seq<byte>> -> View

  function See(m: Model): Sight {
    q => Look(m.inodes, m.dirs, m.contents, q)
  }

  ghost predicate SameSight(a: Sight, b: Sight) {
    forall q :: Plain(q) ==> a(q) == b(q)
  }

  /** A content cut or padded with zeros to a length. */
  function Fitted(c: seq<byte>, length: int): (r: seq<byte>)
    requires 0 <= length
    ensures |r| == length
    ensures forall i :: 0 <= i < length ==> r[i] == if i < |c| then c[i] else 0
  {
    if length <= |c| then c[..length] else c + Zeros(length - |c|)
  }

  /** Nothing can be made at the path: something is there, or its parent is no directory. */
  ghost predicate Unmakable(see: Sight, names: seq<seq<byte>>) {
    names == [] || see(names) != Absent || see(names[..|names| - 1]) != Dir
  }

  /** A path leads on from here. */
  ghost predicate LeadsOn(see: Sight, names: seq<seq<byte>>) {
    exists name :: Plain(names + [name]) && see(names + [name]) != Absent
  }

  /** The call is answered with an error whatever room there is. */
  ghost predicate Refused(see: Sight, c: Call) {
    match c
    case MakeFile(names) => Unmakable(see, names)
    case MakeDir(names) => Unmakable(see, names)
    case Put(names, data, off) => data != [] && (off < 0 || !see(names).File?)
    case SetLength(names, length) => length < 0 || !see(names).File?
    case Remove(names) => names == [] || see(names) == Absent || LeadsOn(see, names)
  }

  /** What the call makes of what is at its path. */
  function Effect(v: View, c: Call): View {
    match c
    case MakeFile(_) => File([])
    case MakeDir(_) => Dir
    case Put(_, data, off) => if data == [] || off < 0 || !v.File? then v else File(Overlay(v.bytes, off, data))
    case SetLength(_, length) => if length < 0 || !v.File? then v else File(Fitted(v.bytes, length))
    case Remove(_) => Absent
  }

  /** A call that succeeds changes what is at its path, and nothing else. */
  function After(see: Sight, c: Call): Sight {
    q => if q == c.names then Effect(see(q), c) else see(q)
  }

  function Seen(see: Sight, calls: seq<Call>): Sight {
    if calls == [] then see else After(Seen(see, calls[..|calls| - 1]), calls[|calls| - 1])
  }

  /** How many blocks of data inode `i` has. */
  function BlocksAt(m: Model, i: int): int
    requires 0 <= i < |m.inodes| == |m.dirs| == |m.contents|
  {
    if m.inodes[i].isDir then |m.dirs[i]| else BlocksFor(|m.contents[i]|)
  }

  /** What the program needs for a call: bytes are written to files only, no block is freed
      into an empty list, and blocks are cut off only where the cut is exact. */
  ghost predicate Allowed(m: Model, c: Call) {
    var i := InodeAt(m.inodes, m.dirs, c.names);
    0 <= i < |m.inodes| == |m.dirs| == |m.contents| ==>
      match c
      case Put(_, _, _) => !m.inodes[i].isDir
      case SetLength(_, length) =>
        && !m.inodes[i].isDir
        && (0 <= length && BlocksFor(length) < BlocksAt(m, i) ==>
              m.free > 0 && ExactCut(BlocksAt(m, i), BlocksFor(length)))
      case Remove(_) => i == ROOT_INODE_NUM || Occupied(m.inodes, m.dirs, i) || BlocksAt(m, i) == 0 || m.free > 0
      case _ => true
  }

  /** An inode is free and the entry for the path fits into its parent directory. */
  ghost predicate RoomFor(m: Model, names: seq<seq<byte>>) {
    && names != []
    && var p := InodeAt(m.inodes, m.dirs, names[..|names| - 1]);
       && (exists i :: 3 <= i < |m.inodes| && !m.inodes[i].inUse)
       && 0 <= p < |m.dirs| && EntryFits(m.dirs[p], names[|names| - 1], m.free)
  }

  /** There are the blocks and the inode that the call takes. */
  ghost predicate Possible(m: Model, c: Call) {
    match c
    case MakeFile(names) => RoomFor(m, names)
    case MakeDir(names) =>
      && RoomFor(m, names)
      && m.free > EntryCost(m.dirs[InodeAt(m.inodes, m.dirs, names[..|names| - 1])], names[|names| - 1])
    case Put(names, data, off) =>
      data == [] || (See(m)(names).File? && 0 <= off && Fits(BlocksFor(|See(m)(names).bytes|), off, |data|, m.free))
    case SetLength(names, length) =>
      && See(m)(names).File?
      && var n := |See(m)(names).bytes|;
         length <= n || Fits(BlocksFor(n), n, length - n, m.free)
    case Remove(_) => true
  }

  /** The smallest free inode from `i` on, or the number of inodes. */
  function NextIno(inodes: seq<InodeRec>, i: nat): (r: int)
    requires i <= |inodes|
    ensures i <= r <= |inodes| && (forall j :: i <= j < r ==> inodes[j].inUse) && (r < |inodes| ==> !inodes[r].inUse)
    decreases |inodes| - i
  {
    if i < |inodes| && inodes[i].inUse then NextIno(inodes, i + 1) else i
  }

  /** Entering a new inode: the smallest free one. */
  function WithInode(m: Model, names: seq<seq<byte>>, isDir: bool): Model {
    if names == [] || |m.inodes| < 3 then m else
      var p, r, name := InodeAt(m.inodes, m.dirs, names[..|names| - 1]), NextIno(m.inodes, 3), names[|names| - 1];
      if !(0 <= p < |m.dirs| == |m.inodes| && r < |m.inodes|) then m else
        Model(m.inodes[r := Shape(NewInode(isDir))],
              if isDir then WithDir(m.dirs, p, name, r) else WithFile(m.dirs, p, name, r), m.contents,
              m.free - EntryCost(m.dirs[p], name) - if isDir then 1 else 0)
  }

  /** New content for a file. */
  function Rewritten(m: Model, i: int, c: seq<byte>): Model
    requires 0 <= i < |m.contents|
  {
    m.(contents := m.contents[i := c], free := m.free - Cost(BlocksFor(|m.contents[i]|), BlocksFor(|c|)))
  }

  /** Taking out an inode with its entry. */
  function TakenOut(m: Model, names: seq<seq<byte>>): Model {
    var r := InodeAt(m.inodes, m.dirs, names);
    if names == [] || !(0 <= r < |m.inodes| == |m.dirs| == |m.contents|) then m else
      var p, name := InodeAt(m.inodes, m.dirs, names[..|names| - 1]), names[|names| - 1];
      if !(0 <= p < |m.dirs|) then m else
        Model(m.inodes[r := ZeroInode()], WithoutFile(m.dirs, p, name, r), m.contents[r := []],
              m.free + BlocksAt(m, r) + IndexBlocks(BlocksAt(m, r)))
  }

  /** What a call that succeeds makes of the file system. */
  function Next(m: Model, c: Call): Model {
    match c
    case MakeFile(names) => WithInode(m, names, false)
    case MakeDir(names) => WithInode(m, names, true)
    case Put(names, data, off) =>
      var i := InodeAt(m.inodes, m.dirs, names);
      if data == [] || off < 0 || !(0 <= i < |m.contents|) then m else Rewritten(m, i, Overlay(m.contents[i], off, data))
    case SetLength(names, length) =>
      var i := InodeAt(m.inodes, m.dirs, names);
      if length < 0 || !(0 <= i < |m.contents|) then m else Rewritten(m, i, Fitted(m.contents[i], length))
    case Remove(names) => TakenOut(m, names)
  }

  function Outcome(m: Model, calls: seq<Call>): Model {
    if calls == [] then m else Next(Outcome(m, calls[..|calls| - 1]), calls[|calls| - 1])
  }

  ghost predicate Succeeds(m: Model, c: Call) {
    Allowed(m, c) && !Refused(See(m), c) && Possible(m, c)
  }

  /** Paths resolve the same whatever the records say of blocks and sizes. */
  lemma SameShapes(inodes: seq<InodeRec>, dirs: Tree, contents: seq<seq<byte>>, names: seq<seq<byte>>)
    ensures InodeAt(Shapes(inodes), dirs, names) == InodeAt(inodes, dirs, names)
    ensures Look(Shapes(inodes), dirs, contents, names) == Look(inodes, dirs, contents, names)
  {
    hide NameOf;
    NameOfSame(inodes, Shapes(inodes), dirs, PathOf(names));
  }

  lemma SameOccupied(inodes: seq<InodeRec>, dirs: Tree, i: int)
    ensures Occupied(Shapes(inodes), dirs, i) <==> Occupied(inodes, dirs, i)
  {
    hide Entries;
  }

  lemma OutcomeSnoc(m: Model, calls: seq<Call>, n: nat)
    requires n < |calls|
    ensures Outcome(m, calls[..n + 1]) == Next(Outcome(m, calls[..n]), calls[n])
  {
    assert calls[..n + 1][..n] == calls[..n];
  }

  lemma SeenSnoc(see: Sight, calls: seq<Call>, n: nat)
    requires n < |calls|
    ensures Seen(see, calls[..n + 1]) == After(Seen(see, calls[..n]), calls[n])
  {
    assert calls[..n + 1][..n] == calls[..n];
  }

  lemma AfterSame(a: Sight, b: Sight, c: Call)
    requires SameSight(a, b)
    ensures SameSight(After(a, c), After(b, c))
  {
    hide Plain, Effect;
  }

  lemma SightsJoin(a: Sight, b: Sight, c: Sight)
    requires SameSight(a, b) && SameSight(b, c)
    ensures SameSight(a, c)
  {
    hide Plain;
  }

  lemma {:induction false} SeenSame(a: Sight, b: Sight, calls: seq<Call>)
    requires SameSight(a, b)
    ensures SameSight(Seen(a, calls), Seen(b, calls))
  {
    hide Plain, Effect, After;
    if calls != [] {
      SeenSame(a, b, calls[..|calls| - 1]);
      AfterSame(Seen(a, calls[..|calls| - 1]), Seen(b, calls[..|calls| - 1]), calls[|calls| - 1]);
    }
  }

  /** Calls on other paths do not change what is seen at a path. */
  lemma {:induction false} OtherPaths(see: Sight, calls: seq<Call>, q: seq<seq<byte>>)
    requires forall c :: c in calls ==> c.names != q
    ensures Seen(see, calls)(q) == see(q)
  {
    if calls != [] {
      OtherPaths(see, calls[..|calls| - 1], q);
    }
  }

  /** What was made last at a path is there; nothing is there once it has been removed. */
  lemma LastMade(see: Sight, calls: seq<Call>, names: seq<seq<byte>>)
    ensures Seen(see, calls + [MakeFile(names)])(names) == File([])
    ensures Seen(see, calls + [MakeDir(names)])(names) == Dir
    ensures Seen(see, calls + [Remove(names)])(names) == Absent
  {
    hide Seen;
    LastIsAfter(see, calls, MakeFile(names));
    LastIsAfter(see, calls, MakeDir(names));
    LastIsAfter(see, calls, Remove(names));
  }

  /** The bytes put last into a file are there, the others are what they were, and a gap is zeros. */
  lemma LastPut(see: Sight, calls: seq<Call>, names: seq<seq<byte>>, data: seq<byte>, off: nat, i: nat)
    requires Seen(see, calls)(names).File? && data != []
    ensures
      var c, v := Seen(see, calls)(names).bytes, Seen(see, calls + [Put(names, data, off)])(names);
      && v.File? && |v.bytes| == (if |c| < off + |data| then off + |data| else |c|)
      && (i < |v.bytes| ==>
            v.bytes[i] == if off <= i < off + |data| then data[i - off] else if i < |c| then c[i] else 0)
  {
    hide Overlay, Seen;
    LastIsAfter(see, calls, Put(names, data, off));
    OverlayBytes(Seen(see, calls)(names).bytes, off, data, i);
  }

  /** A length set last is there, with the bytes as far as there were any. */
  lemma LastLength(see: Sight, calls: seq<Call>, names: seq<seq<byte>>, length: nat, i: nat)
    requires Seen(see, calls)(names).File?
    ensures
      var c, v := Seen(see, calls)(names).bytes, Seen(see, calls + [SetLength(names, length)])(names);
      v.File? && |v.bytes| == length && (i < length ==> v.bytes[i] == if i < |c| then c[i] else 0)
  {
    hide Seen;
    LastIsAfter(see, calls, SetLength(names, length));
  }

  lemma LastIsAfter(see: Sight, calls: seq<Call>, c: Call)
    ensures Seen(see, calls + [c])(c.names) == Effect(Seen(see, calls)(c.names), c)
  {
    assert (calls + [c])[..|calls|] == calls && (calls + [c])[|calls|] == c;
  }
}
