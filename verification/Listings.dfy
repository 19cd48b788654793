/** A directory as the list of its records, and what adding and removing make of it. */
module Listings {
  import opened Blocks
  import opened Records

  /** The records of a directory, block after block. */
  function Entries(dirs: seq<seq<Record>>): seq<Record> {
    if dirs == [] then [] else dirs[0] + Entries(dirs[1..])
  }

  /** The inode number of the first record with the name. */
  function LookupIn(rs: seq<Record>, name: seq<byte>): Option<int> {
    var i := Find(rs, name);
    if i < |rs| then Some(rs[i].inum) else None
  }

  /** The first block with a record of that name, or the number of blocks. */
  function FindBlock(dirs: seq<seq<Record>>, name: seq<byte>): (k: int)
    ensures 0 <= k <= |dirs| && (k < |dirs| ==> Find(dirs[k], name) < |dirs[k]|)
    ensures forall j :: 0 <= j < k ==> Find(dirs[j], name) == |dirs[j]|
  {
    if dirs == [] || Find(dirs[0], name) < |dirs[0]| then 0 else 1 + FindBlock(dirs[1..], name)
  }

  lemma FindBlockIs(dirs: seq<seq<Record>>, name: seq<byte>, k: int)
    requires 0 <= k <= |dirs| && (k < |dirs| ==> Find(dirs[k], name) < |dirs[k]|)
    requires forall j :: 0 <= j < k ==> Find(dirs[j], name) == |dirs[j]|
    ensures FindBlock(dirs, name) == k
  {
  }

  /** The first block with room, or the number of blocks. */
  function RoomIn(dirs: seq<seq<Record>>, size: int): (k: int)
    ensures 0 <= k <= |dirs| && (k < |dirs| ==> Room(dirs[k], size))
    ensures forall j :: 0 <= j < k ==> !Room(dirs[j], size)
  {
    if dirs == [] || Room(dirs[0], size) then 0 else 1 + RoomIn(dirs[1..], size)
  }

  /** The record goes behind the others of the first block with room, or into a new block. */
  function Added(dirs: seq<seq<Record>>, r: Record): seq<seq<Record>> {
    var k := RoomIn(dirs, Size(r));
    if k < |dirs| then dirs[k := dirs[k] + [r]] else dirs + [[r]]
  }

  function Without(rs: seq<Record>, i: int): seq<Record>
    requires 0 <= i < |rs|
  {
    rs[..i] + rs[i + 1..]
  }

  /** The first record with the name is taken out. */
  function Removed(dirs: seq<seq<Record>>, name: seq<byte>): seq<seq<Record>> {
    var k := FindBlock(dirs, name);
    if k < |dirs| then dirs[k := Without(dirs[k], Find(dirs[k], name))] else dirs
  }

  ghost predicate UniqueNames(rs: seq<Record>) {
    forall i, j :: 0 <= i < j < |rs| ==> rs[i].name != rs[j].name
  }

  lemma {:induction false} EntriesConcat(a: seq<seq<Record>>, b: seq<seq<Record>>)
    ensures Entries(a + b) == Entries(a) + Entries(b)
  {
    if a == [] {
      assert a + b == b;
    } else {
      EntriesConcat(a[1..], b);
      assert (a + b)[1..] == a[1..] + b;
      Regroup(a[0], Entries(a[1..]), Entries(b));
    }
  }

  lemma EntriesOne(rs: seq<Record>)
    ensures Entries([rs]) == rs
  {
    assert Entries([rs][1..]) == [];
  }

  lemma EntriesAt(dirs: seq<seq<Record>>, k: int, rs: seq<Record>)
    requires 0 <= k < |dirs|
    ensures Entries(dirs) == Entries(dirs[..k]) + dirs[k] + Entries(dirs[k + 1..])
    ensures Entries(dirs[k := rs]) == Entries(dirs[..k]) + rs + Entries(dirs[k + 1..])
  {
    hide Entries;
    SplitAt(dirs, k);
    assert dirs[k := rs] == dirs[..k] + ([rs] + dirs[k + 1..]);
    EntriesConcat(dirs[..k], [dirs[k]] + dirs[k + 1..]);
    EntriesConcat([dirs[k]], dirs[k + 1..]);
    EntriesConcat(dirs[..k], [rs] + dirs[k + 1..]);
    EntriesConcat([rs], dirs[k + 1..]);
    EntriesOne(dirs[k]);
    EntriesOne(rs);
    Regroup(Entries(dirs[..k]), dirs[k], Entries(dirs[k + 1..]));
    Regroup(Entries(dirs[..k]), rs, Entries(dirs[k + 1..]));
  }

  lemma FindConcat(a: seq<Record>, b: seq<Record>, name: seq<byte>)
    ensures Find(a + b, name) == if Find(a, name) < |a| then Find(a, name) else |a| + Find(b, name)
  {
    FindIs(a + b, name, if Find(a, name) < |a| then Find(a, name) else |a| + Find(b, name));
  }

  lemma {:induction false} FindNowhere(dirs: seq<seq<Record>>, name: seq<byte>)
    requires forall j :: 0 <= j < |dirs| ==> Find(dirs[j], name) == |dirs[j]|
    ensures Find(Entries(dirs), name) == |Entries(dirs)|
  {
    if dirs != [] {
      FindNowhere(dirs[1..], name);
      FindConcat(dirs[0], Entries(dirs[1..]), name);
    }
  }

  /** The search block by block finds the first record of the whole list. */
  lemma SearchRefines(dirs: seq<seq<Record>>, name: seq<byte>)
    ensures
      var k := FindBlock(dirs, name);
      if k == |dirs| then Find(Entries(dirs), name) == |Entries(dirs)|
      else Find(Entries(dirs), name) == |Entries(dirs[..k])| + Find(dirs[k], name)
    ensures LookupIn(Entries(dirs), name).Some? <==> FindBlock(dirs, name) < |dirs|
    ensures
      var k := FindBlock(dirs, name);
      k < |dirs| ==> LookupIn(Entries(dirs), name) == Some(dirs[k][Find(dirs[k], name)].inum)
  {
    hide Entries;
    var k := FindBlock(dirs, name);
    if k == |dirs| {
      FindNowhere(dirs, name);
    } else {
      EntriesAt(dirs, k, dirs[k]);
      FindNowhere(dirs[..k], name);
      FindConcat(Entries(dirs[..k]) + dirs[k], Entries(dirs[k + 1..]), name);
      FindConcat(Entries(dirs[..k]), dirs[k], name);
    }
  }

  lemma LookupConcat(a: seq<Record>, b: seq<Record>, name: seq<byte>)
    ensures LookupIn(a + b, name) == if LookupIn(a, name).Some? then LookupIn(a, name) else LookupIn(b, name)
  {
    FindConcat(a, b, name);
  }

  lemma LookupOne(r: Record, name: seq<byte>)
    ensures LookupIn([r], name) == if r.name == name then Some(r.inum) else None
  {
    FindIs([r], name, if r.name == name then 0 else 1);
  }

  /** Inserting a record with a new name adds exactly that name. */
  lemma InsertFinds(rs: seq<Record>, i: int, r: Record, name: seq<byte>)
    requires 0 <= i <= |rs| && LookupIn(rs, r.name) == None
    ensures LookupIn(rs[..i] + [r] + rs[i..], name) == if name == r.name then Some(r.inum) else LookupIn(rs, name)
  {
    hide LookupIn;
    assert rs == rs[..i] + rs[i..];
    LookupConcat(rs[..i], rs[i..], name);
    LookupConcat(rs[..i] + [r], rs[i..], name);
    LookupConcat(rs[..i], [r], name);
    LookupOne(r, name);
  }

  /** Removing the first record with a name leaves the other names alone. */
  lemma DeleteFinds(rs: seq<Record>, name: seq<byte>, other: seq<byte>)
    requires Find(rs, name) < |rs| && other != name
    ensures LookupIn(Without(rs, Find(rs, name)), other) == LookupIn(rs, other)
  {
    var i := Find(rs, name);
    DeleteAt(rs, i, other);
  }

  lemma DeleteAt(rs: seq<Record>, i: int, other: seq<byte>)
    requires 0 <= i < |rs| && other != rs[i].name
    ensures LookupIn(Without(rs, i), other) == LookupIn(rs, other)
  {
    hide LookupIn;
    SplitAt(rs, i);
    LookupConcat(rs[..i], [rs[i]] + rs[i + 1..], other);
    LookupConcat([rs[i]], rs[i + 1..], other);
    LookupOne(rs[i], other);
    LookupConcat(rs[..i], rs[i + 1..], other);
  }

  /** If the name was unique it is gone. */
  lemma DeleteGone(rs: seq<Record>, name: seq<byte>)
    requires Find(rs, name) < |rs| && UniqueNames(rs)
    ensures LookupIn(Without(rs, Find(rs, name)), name) == None && UniqueNames(Without(rs, Find(rs, name)))
  {
    var t := Without(rs, Find(rs, name));
    FindIs(t, name, |t|);
  }

  lemma AddedEntries(dirs: seq<seq<Record>>, r: Record) returns (i: int)
    ensures 0 <= i <= |Entries(dirs)|
    ensures Entries(Added(dirs, r)) == Entries(dirs)[..i] + [r] + Entries(dirs)[i..]
  {
    hide Entries;
    var k := RoomIn(dirs, Size(r));
    if k < |dirs| {
      EntriesAt(dirs, k, dirs[k] + [r]);
      i := InsertAt(Entries(dirs[..k]), dirs[k], Entries(dirs[k + 1..]), r);
    } else {
      EntriesConcat(dirs, [[r]]);
      EntriesOne([r]);
      i := |Entries(dirs)|;
      assert Entries(dirs)[..i] == Entries(dirs) && Entries(dirs)[i..] == [];
    }
  }

  lemma InsertAt(a: seq<Record>, b: seq<Record>, c: seq<Record>, r: Record) returns (i: int)
    ensures i == |a| + |b| && a + (b + [r]) + c == (a + b + c)[..i] + [r] + (a + b + c)[i..]
  {
    i := |a| + |b|;
  }

  lemma RemovedEntries(dirs: seq<seq<Record>>, name: seq<byte>)
    requires FindBlock(dirs, name) < |dirs|
    ensures Find(Entries(dirs), name) < |Entries(dirs)|
    ensures Entries(Removed(dirs, name)) == Without(Entries(dirs), Find(Entries(dirs), name))
  {
    hide Entries, Find, FindBlock, Without;
    var k := FindBlock(dirs, name);
    var i := Find(dirs[k], name);
    SearchRefines(dirs, name);
    EntriesAt(dirs, k, Without(dirs[k], i));
    WithoutMiddle(Entries(dirs[..k]), dirs[k], Entries(dirs[k + 1..]), i);
  }

  lemma WithoutMiddle(a: seq<Record>, b: seq<Record>, c: seq<Record>, i: int)
    requires 0 <= i < |b|
    ensures a + Without(b, i) + c == Without(a + b + c, |a| + i)
  {
  }

  /** After adding an absent name, it is found with its inode number, every other search
      gives what it gave before, and there is one record more. */
  lemma AddFinds(dirs: seq<seq<Record>>, r: Record, name: seq<byte>)
    requires LookupIn(Entries(dirs), r.name) == None
    ensures LookupIn(Entries(Added(dirs, r)), name) ==
      if name == r.name then Some(r.inum) else LookupIn(Entries(dirs), name)
    ensures |Entries(Added(dirs, r))| == |Entries(dirs)| + 1
    ensures UniqueNames(Entries(dirs)) ==> UniqueNames(Entries(Added(dirs, r)))
  {
    hide Entries, Added;
    var i := AddedEntries(dirs, r);
    InsertFinds(Entries(dirs), i, r, name);
    if UniqueNames(Entries(dirs)) {
      InsertUnique(Entries(dirs), i, r);
    }
  }

  lemma InsertUnique(rs: seq<Record>, i: int, r: Record)
    requires 0 <= i <= |rs| && LookupIn(rs, r.name) == None && UniqueNames(rs)
    ensures UniqueNames(rs[..i] + [r] + rs[i..])
  {
    assert forall j :: 0 <= j < |rs| ==> rs[j].name != r.name;
  }

  /** After removing a name every other search gives what it gave before; if the name was
      unique it is no longer found. */
  lemma RemoveFinds(dirs: seq<seq<Record>>, name: seq<byte>, other: seq<byte>)
    requires LookupIn(Entries(dirs), name).Some?
    ensures other != name ==> LookupIn(Entries(Removed(dirs, name)), other) == LookupIn(Entries(dirs), other)
    ensures UniqueNames(Entries(dirs)) ==>
      LookupIn(Entries(Removed(dirs, name)), name) == None && UniqueNames(Entries(Removed(dirs, name)))
    ensures |Entries(Removed(dirs, name))| == |Entries(dirs)| - 1
  {
    hide Entries, Removed;
    SearchRefines(dirs, name);
    RemovedEntries(dirs, name);
    if other != name {
      DeleteFinds(Entries(dirs), name, other);
    }
    if UniqueNames(Entries(dirs)) {
      DeleteGone(Entries(dirs), name);
    }
  }

  /** Removing a name that was just added gives the old list back. */
  lemma AddRemove(dirs: seq<seq<Record>>, r: Record)
    requires LookupIn(Entries(dirs), r.name) == None
    ensures Entries(Removed(Added(dirs, r), r.name)) == Entries(dirs)
  {
    hide Entries, Added, Removed;
    var i := AddedEntries(dirs, r);
    AddFinds(dirs, r, r.name);
    SearchRefines(Added(dirs, r), r.name);
    RemovedEntries(Added(dirs, r), r.name);
    var rs := Entries(dirs);
    FindIs(rs[..i] + [r] + rs[i..], r.name, i);
    assert Without(rs[..i] + [r] + rs[i..], i) == rs;
  }
}
