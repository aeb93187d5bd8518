/** BMFS as a map from names to contents (bmfs.c): what findfile, create, write and delete
    do to the directory and to the files seen through it. */
module BmfsFiles {
  import opened Octets
  import opened Sync
  import opened Bmfs

  /** Bytes in a block. */
  const BLOCK := 2097152
  const MIB := 1048576

  type Directory = seq<Entry>

  /** The place of the 0x00 record, or the length of the directory. */
  function End(dir: Directory): (n: nat)
    ensures n <= |dir| && (forall i :: 0 <= i < n ==> !IsEnd(dir[i])) && (n < |dir| ==> IsEnd(dir[n]))
  {
    if dir == [] || IsEnd(dir[0]) then 0 else 1 + End(dir[1..])
  }

  lemma EndIs(dir: Directory, n: nat)
    requires n <= |dir| && (forall i :: 0 <= i < n ==> !IsEnd(dir[i])) && (n < |dir| ==> IsEnd(dir[n]))
    ensures End(dir) == n
  {
  }

  /** A file that list and findfile get to. */
  predicate Listed(dir: Directory, i: nat) {
    i < End(dir) && IsLive(dir[i])
  }

  /** findfile from record `i` on. */
  function FindFrom(dir: Directory, name: Name, i: nat): (r: Option<nat>)
    requires i <= |dir|
    decreases |dir| - i
  {
    if i == |dir| || IsEnd(dir[i]) then None
    else if IsLive(dir[i]) && dir[i].name == name then Some(i)
    else FindFrom(dir, name, i + 1)
  }

  function Find(dir: Directory, name: Name): Option<nat> {
    FindFrom(dir, name, 0)
  }

  /** The first listed record of that name. */
  ghost predicate IsFirst(dir: Directory, name: Name, i: nat, k: nat) {
    && i <= k && Listed(dir, k) && dir[k].name == name
    && forall j :: i <= j < k && Listed(dir, j) ==> dir[j].name != name
  }

  lemma {:induction false} FindFromIs(dir: Directory, name: Name, i: nat)
    requires i <= |dir| && forall j :: 0 <= j < i ==> !IsEnd(dir[j])
    ensures var r := FindFrom(dir, name, i);
      && (r.Some? ==> IsFirst(dir, name, i, r.value))
      && (r.None? ==> forall j :: i <= j && Listed(dir, j) ==> dir[j].name != name)
    decreases |dir| - i
  {
    if i < |dir| && !IsEnd(dir[i]) && !(IsLive(dir[i]) && dir[i].name == name) {
      FindFromIs(dir, name, i + 1);
    }
  }

  /** findfile returns the first listed file of that name, if there is one. */
  lemma FindIs(dir: Directory, name: Name)
    ensures Find(dir, name).Some? ==> IsFirst(dir, name, 0, Find(dir, name).value)
    ensures forall k: nat :: IsFirst(dir, name, 0, k) ==> Find(dir, name) == Some(k)
    ensures Find(dir, name).None? <==> forall k: nat :: Listed(dir, k) ==> dir[k].name != name
  {
    FindFromIs(dir, name, 0);
  }

  /** As create counts them: the records before the 0x00 record, and none without one. */
  function NumUsed(dir: Directory): nat {
    if End(dir) < |dir| then End(dir) else 0
  }

  /** The first deleted record before `n` from `i` on. */
  function FirstDeleted(dir: Directory, i: nat, n: nat): Option<nat>
    requires i <= n <= |dir|
    decreases n - i
  {
    if i == n then None else if IsDeleted(dir[i]) then Some(i) else FirstDeleted(dir, i + 1, n)
  }

  /** The record that create will use. */
  function FirstFree(dir: Directory): Option<nat> {
    var d := FirstDeleted(dir, 0, End(dir));
    if d.Some? then d else if End(dir) < |dir| then Some(End(dir)) else None
  }

  lemma {:induction false} FirstDeletedIs(dir: Directory, i: nat, n: nat)
    requires i <= n <= |dir|
    ensures var d := FirstDeleted(dir, i, n);
      && (d.Some? ==> i <= d.value < n && IsDeleted(dir[d.value]))
      && (d.Some? ==> forall j :: i <= j < d.value ==> !IsDeleted(dir[j]))
      && (d.None? ==> forall j :: i <= j < n ==> !IsDeleted(dir[j]))
    decreases n - i
  {
    if i < n && !IsDeleted(dir[i]) {
      FirstDeletedIs(dir, i + 1, n);
    }
  }

  /** The directory with a new record in place, and a new 0x00 record behind it if the
      old one was used up. */
  function Insert(dir: Directory, slot: nat, e: Entry): Directory
    requires slot < |dir|
  {
    Put(dir, NumUsed(dir), slot, e)
  }

  function Put(dir: Directory, used: nat, slot: nat, e: Entry): (d: Directory)
    requires slot < |dir|
    ensures |d| == |dir|
  {
    var d := dir[slot := e];
    if slot == used && used + 1 < |dir| then d[used + 1 := d[used + 1].(name := [])] else d
  }

  /** Blocks for a size in MiB, which is made even first. */
  function Wanted(maxsize: Word): Word {
    Add(maxsize, maxsize % 2) / 2
  }

  /** The least number of blocks that hold `maxsize` MiB. */
  predicate LeastFor(reserved: nat, maxsize: nat) {
    reserved * BLOCK >= maxsize * MIB && (reserved > 0 ==> (reserved - 1) * BLOCK < maxsize * MIB)
  }

  lemma WantedLeast(maxsize: Word)
    requires maxsize < WORD - 1
    ensures LeastFor(Wanted(maxsize), maxsize)
  {
    var even := maxsize + maxsize % 2;
    assert Add(maxsize, maxsize % 2) == even && even % 2 == 0;
  }

  datatype Outcome = Created | Exists | NoRecord | NoRoom

  /** create, where `sorted` is what qsort made of the used records. */
  function Create(dir: Directory, name: Name, maxsize: Word, sorted: seq<Entry>, blocks: nat): (Outcome, Directory)
    requires 3 <= blocks < WORD
  {
    if Find(dir, name).Some? then (Exists, dir)
    else if FirstFree(dir).None? then (NoRecord, dir)
    else
      var start := Scan(sorted, 0, 1, blocks, Wanted(maxsize));
      if start == 0 then (NoRoom, dir) else
        FirstDeletedIs(dir, 0, End(dir));
        (Created, Insert(dir, FirstFree(dir).value, Entry(name, start, Wanted(maxsize), 0)))
  }

  /** When create says what, and the record that it fills in. */
  lemma CreateSays(dir: Directory, name: Name, maxsize: Word, sorted: seq<Entry>, blocks: nat)
    requires 3 <= blocks < WORD
    ensures var (outcome, dir') := Create(dir, name, maxsize, sorted, blocks);
      && (outcome == Exists <==> Find(dir, name).Some?)
      && (outcome == NoRecord <==> Find(dir, name).None? && FirstFree(dir).None?)
      && (outcome != Created ==> dir' == dir)
      && (outcome == Created ==>
            && FirstFree(dir).Some? && FirstFree(dir).value < |dir| == |dir'|
            && var e := dir'[FirstFree(dir).value];
               && e.name == name && e.size == 0 && (maxsize < WORD - 1 ==> LeastFor(e.reserved, maxsize))
               && forall k :: 0 <= k < |dir| && k != FirstFree(dir).value ==>
                    dir'[k] == dir[k] || (k == FirstFree(dir).value + 1 && dir'[k] == dir[k].(name := [])))
  {
    FirstDeletedIs(dir, 0, End(dir));
    if maxsize < WORD - 1 { WantedLeast(maxsize); }
  }

  /** What the name field holds once its first byte is 0x01. */
  function Delete(dir: Directory, name: Name): Directory {
    FindFromIs(dir, name, 0);
    if Find(dir, name).None? then dir
    else
      var i := Find(dir, name).value;
      dir[i := dir[i].(name := dir[i].name[0 := 1])]
  }

  /** delete overwrites the first byte of one name and nothing else. */
  lemma DeleteTouches(dir: Directory, name: Name)
    ensures var (i, dir') := (Find(dir, name), Delete(dir, name));
      && |dir'| == |dir| && (i.None? ==> dir' == dir)
      && (i.Some? ==>
            && i.value < |dir| && IsDeleted(dir'[i.value]) && dir[i.value].name != []
            && dir'[i.value].name[1..] == dir[i.value].name[1..]
            && dir'[i.value] == dir[i.value].(name := dir'[i.value].name)
            && forall k :: 0 <= k < |dir| && k != i.value ==> dir'[k] == dir[k])
  {
    FindFromIs(dir, name, 0);
  }

  /** write replaces the bytes from the first block of the file on, and its size, and nothing else. */
  lemma WriteTouches(v: Volume, name: Name, content: seq<Byte>, blocks: nat)
    requires VolumeOk(v, blocks)
    ensures var (v', ok) := Apply(v, OpWrite(name, content), blocks);
      && |v'.dir| == |v.dir| && |v'.disk| == |v.disk| && (!ok ==> v' == v)
      && (ok <==> exists i: nat :: IsFirst(v.dir, name, 0, i) && |content| <= v.dir[i].reserved * BLOCK)
      && forall i: nat :: ok && IsFirst(v.dir, name, 0, i) ==>
           && (forall k :: 0 <= k < |v.dir| ==>
                 v'.dir[k] == if k == i then v.dir[i].(size := v'.dir[i].size) else v.dir[k])
           && v'.dir[i].size == |content|
           && forall x :: 0 <= x < |v.disk| ==>
                v'.disk[x] == var a := v.dir[i].start * BLOCK;
                              if a <= x < a + |content| then content[x - a] else v.disk[x]
  {
    FindIs(v.dir, name);
  }

  // The files

  ghost predicate UniqueNames(dir: Directory) {
    forall i, j :: 0 <= i < j && Listed(dir, i) && Listed(dir, j) ==> dir[i].name != dir[j].name
  }

  ghost predicate Separate(dir: Directory) {
    forall i, j :: 0 <= i < j && Listed(dir, i) && Listed(dir, j) ==> Apart(dir[i], dir[j])
  }

  /** A record whose extent is on the disk and holds the file. */
  predicate Stored(e: Entry, blocks: nat) {
    InRange(e, blocks) && e.reserved >= 1 && e.size <= e.reserved * BLOCK
  }

  /** Names are unique, extents lie on the disk and do not overlap. Deleted records keep
      the extents they had. */
  ghost predicate Sane(dir: Directory, blocks: nat) {
    && |dir| == ENTRIES && 3 <= blocks < 0x8000_0000
    && UniqueNames(dir) && Separate(dir)
    && forall i :: 0 <= i < End(dir) ==> Stored(dir[i], blocks)
  }

  function Contents(e: Entry, disk: seq<Byte>): seq<Byte> {
    if e.start * BLOCK + e.size <= |disk| then disk[e.start * BLOCK..e.start * BLOCK + e.size] else []
  }

  /** The file of that name as findfile sees it. */
  function FileOf(dir: Directory, disk: seq<Byte>, name: Name): Option<seq<Byte>> {
    FindFromIs(dir, name, 0);
    if Find(dir, name).None? then None else Some(Contents(dir[Find(dir, name).value], disk))
  }

  /** The files of `dir'` are those of `dir`, except that `name` now has contents `c`. */
  ghost predicate Updated(dir': Directory, disk': seq<Byte>, dir: Directory, disk: seq<Byte>,
                          name: Name, c: Option<seq<Byte>>) {
    forall n :: FileOf(dir', disk', n) == if n == name then c else FileOf(dir, disk, n)
  }

  /** findfile depends on the listed records of that name only. */
  lemma FindSame(dir: Directory, dir': Directory, name: Name)
    requires forall k: nat :: Listed(dir, k) && dir[k].name == name <==> Listed(dir', k) && dir'[k].name == name
    ensures Find(dir, name) == Find(dir', name)
  {
    FindIs(dir, name);
    FindIs(dir', name);
    assert Find(dir, name).Some? ==> IsFirst(dir', name, 0, Find(dir, name).value);
    assert Find(dir', name).Some? ==> IsFirst(dir, name, 0, Find(dir', name).value);
  }

  // delete

  lemma DeleteListed(dir: Directory, i: nat)
    requires Listed(dir, i)
    ensures var dir' := dir[i := dir[i].(name := dir[i].name[0 := 1])];
      && End(dir') == End(dir) && IsDeleted(dir'[i])
      && forall k: nat :: Listed(dir', k) <==> Listed(dir, k) && k != i
  {
    var dir' := dir[i := dir[i].(name := dir[i].name[0 := 1])];
    assert forall k :: 0 <= k < |dir| ==> (IsEnd(dir'[k]) <==> IsEnd(dir[k]));
    EndIs(dir', End(dir));
  }

  /** delete removes exactly the file of that name, and nothing if there is none. */
  lemma DeleteRemoves(dir: Directory, disk: seq<Byte>, name: Name)
    requires UniqueNames(dir)
    ensures Updated(Delete(dir, name), disk, dir, disk, name, None)
  {
    FindIs(dir, name);
    var dir' := Delete(dir, name);
    if Find(dir, name).Some? {
      var i := Find(dir, name).value;
      DeleteListed(dir, i);
      FindIs(dir', name);
      forall n | n != name
        ensures FileOf(dir', disk, n) == FileOf(dir, disk, n)
      {
        FindSame(dir, dir', n);
        FindIs(dir, n);
      }
      assert forall k: nat :: Listed(dir', k) ==> dir'[k].name != name;
    }
  }

  lemma DeleteKeepsSane(dir: Directory, name: Name, blocks: nat)
    requires Sane(dir, blocks)
    ensures Sane(Delete(dir, name), blocks)
  {
    FindIs(dir, name);
    if Find(dir, name).Some? {
      DeleteListed(dir, Find(dir, name).value);
    }
  }

  // write

  /** write: the bytes at the start of the extent, and the new size. */
  function Overwrite(disk: seq<Byte>, at: nat, content: seq<Byte>): seq<Byte>
    requires at + |content| <= |disk|
  {
    disk[..at] + content + disk[at + |content|..]
  }

  lemma ResizeListed(dir: Directory, i: nat, size: Word)
    requires Listed(dir, i)
    ensures var dir' := dir[i := dir[i].(size := size)];
      && End(dir') == End(dir)
      && (forall k: nat :: Listed(dir', k) <==> Listed(dir, k))
      && (forall n :: Find(dir', n) == Find(dir, n))
  {
    var dir' := dir[i := dir[i].(size := size)];
    assert forall k :: 0 <= k < |dir| ==> (IsEnd(dir'[k]) <==> IsEnd(dir[k]));
    EndIs(dir', End(dir));
    assert forall k: nat :: Listed(dir', k) <==> Listed(dir, k);
    forall n
      ensures Find(dir', n) == Find(dir, n)
    {
      FindSame(dir, dir', n);
    }
  }

  /** Writing what fits the reservation changes the contents of that file only. */
  lemma WriteUpdates(dir: Directory, disk: seq<Byte>, name: Name, content: seq<Byte>, blocks: nat)
    requires Sane(dir, blocks) && |disk| >= blocks * BLOCK && Find(dir, name).Some?
    requires (FindFromIs(dir, name, 0); |content| <= dir[Find(dir, name).value].reserved * BLOCK)
    ensures var i := Find(dir, name).value;
      && dir[i].start * BLOCK + |content| <= |disk|
      && Sane(dir[i := dir[i].(size := |content|)], blocks)
      && Updated(dir[i := dir[i].(size := |content|)], Overwrite(disk, dir[i].start * BLOCK, content),
                 dir, disk, name, Some(content))
  {
    FindIs(dir, name);
    var i := Find(dir, name).value;
    var at := dir[i].start * BLOCK;
    var dir' := dir[i := dir[i].(size := |content|)];
    var disk' := Overwrite(disk, at, content);
    ResizeListed(dir, i, |content|);
    assert disk'[at..at + |content|] == content;
    forall n | n != name
      ensures FileOf(dir', disk', n) == FileOf(dir, disk, n)
    {
      FindIs(dir, n);
      if Find(dir, n).Some? {
        var k := Find(dir, n).value;
        assert dir'[k] == dir[k];
        WriteElsewhere(dir, disk, i, content, k, blocks);
      }
    }
  }

  lemma WriteElsewhere(dir: Directory, disk: seq<Byte>, i: nat, content: seq<Byte>, k: nat, blocks: nat)
    requires Sane(dir, blocks) && |disk| >= blocks * BLOCK && Listed(dir, i) && Listed(dir, k) && i != k
    requires |content| <= dir[i].reserved * BLOCK
    ensures dir[i].start * BLOCK + |content| <= |disk|
    ensures Contents(dir[k], Overwrite(disk, dir[i].start * BLOCK, content)) == Contents(dir[k], disk)
  {
  }

  // create

  /** The record that create uses is the first deleted one, or else the 0x00 record. */
  lemma FirstFreeIs(dir: Directory)
    ensures var f := FirstFree(dir);
      && (f.Some? ==> f.value < |dir| && (f.value < End(dir) ==> IsDeleted(dir[f.value])) && f.value <= End(dir))
      && (f == Some(End(dir)) || f.None? ==> forall i :: 0 <= i < End(dir) ==> IsLive(dir[i]))
      && (f.None? <==> End(dir) == |dir| && forall i :: 0 <= i < |dir| ==> IsLive(dir[i]))
      && (f == Some(0) <==> dir != [] && !IsLive(dir[0]))
  {
    FirstDeletedIs(dir, 0, End(dir));
  }

  /** Inserting drops every other file if the directory has no 0x00 record and its first
      record is deleted. */
  predicate Truncates(dir: Directory) {
    End(dir) == |dir| && dir != [] && IsDeleted(dir[0])
  }

  /** Where the directory ends afterwards. */
  function EndAfter(dir: Directory, slot: nat): nat {
    if Truncates(dir) then 1 else if slot == End(dir) then slot + 1 else End(dir)
  }

  lemma PutEnd(dir: Directory, n: nat, slot: nat, e: Entry)
    requires !IsEnd(e) && |dir| == ENTRIES && slot < |dir| && slot <= n <= |dir|
    requires (forall i :: 0 <= i < n ==> !IsEnd(dir[i])) && (n < |dir| ==> IsEnd(dir[n]))
    ensures var dir' := Put(dir, if n < |dir| then n else 0, slot, e);
      var n' := if n == |dir| && slot == 0 then 1 else if slot == n then slot + 1 else n;
      && dir'[slot] == e && (n' < |dir| ==> IsEnd(dir'[n']))
      && (forall k :: 0 <= k < n' && k != slot ==> k < n && dir'[k] == dir[k])
      && (forall k :: 0 <= k < n' ==> !IsEnd(dir'[k]))
  {
  }

  lemma InsertEndAt(dir: Directory, slot: nat, e: Entry)
    requires !IsEnd(e) && |dir| == ENTRIES && slot < |dir| && slot <= End(dir)
    requires slot < End(dir) ==> IsDeleted(dir[slot])
    requires Truncates(dir) <==> End(dir) == |dir| && slot == 0
    ensures var dir' := Insert(dir, slot, e);
      && slot < End(dir') == EndAfter(dir, slot) && dir'[slot] == e
      && (forall k :: 0 <= k < End(dir') && k != slot ==> k < End(dir) && dir'[k] == dir[k])
  {
    PutEnd(dir, End(dir), slot, e);
    EndIs(Insert(dir, slot, e), EndAfter(dir, slot));
  }

  lemma InsertListed(dir: Directory, e: Entry)
    requires FirstFree(dir).Some? && IsLive(e) && |dir| == ENTRIES
    ensures FirstFree(dir).value < |dir|
    ensures var slot, dir' := FirstFree(dir).value, Insert(dir, FirstFree(dir).value, e);
      && dir'[slot] == e
      && (forall k :: 0 <= k < End(dir') && k != slot ==> k < End(dir) && dir'[k] == dir[k])
      && (forall k: nat :: Listed(dir', k) <==> k == slot || (Listed(dir, k) && !Truncates(dir)))
  {
    FirstFreeIs(dir);
    InsertEndAt(dir, FirstFree(dir).value, e);
  }

  lemma InsertEmpty(dir: Directory, slot: nat, e: Entry)
    requires IsEnd(e) && slot < |dir| && slot <= End(dir)
    ensures var dir' := Insert(dir, slot, e);
      dir'[slot] == e && End(dir') == slot && forall k :: 0 <= k < slot ==> dir'[k] == dir[k]
  {
    EndIs(Insert(dir, slot, e), slot);
  }

  /** A name that is a marker lists nothing new.  The empty one ends the directory where the
      first free record was. */
  lemma InsertMarker(dir: Directory, e: Entry)
    requires FirstFree(dir).Some? && IsMarker(e.name) && |dir| == ENTRIES
    ensures FirstFree(dir).value < |dir|
    ensures var slot, dir' := FirstFree(dir).value, Insert(dir, FirstFree(dir).value, e);
      && dir'[slot] == e && (IsEnd(e) ==> End(dir') == slot)
      && (forall k :: 0 <= k < End(dir') && k != slot ==> k < End(dir) && dir'[k] == dir[k])
      && (forall k: nat :: Listed(dir', k) <==> Listed(dir, k) && if IsEnd(e) then k < slot else !Truncates(dir))
  {
    FirstFreeIs(dir);
    var slot := FirstFree(dir).value;
    if IsEnd(e) {
      InsertEmpty(dir, slot, e);
    } else {
      InsertEndAt(dir, slot, e);
    }
  }

  /** No listed file is cut off the directory. */
  ghost predicate KeepsFiles(dir: Directory) {
    !Truncates(dir) || forall k: nat :: !Listed(dir, k)
  }

  /** create adds exactly one file, of no bytes, and keeps all others: if and only if its name
      is no marker and it does not truncate the directory or there is nothing to lose. */
  lemma CreateAdds(dir: Directory, disk: seq<Byte>, name: Name, start: Word, want: Word)
    requires |dir| == ENTRIES && FirstFree(dir).Some? && Find(dir, name).None?
    ensures FirstFree(dir).value < |dir|
    ensures Updated(Insert(dir, FirstFree(dir).value, Entry(name, start, want, 0)), disk, dir, disk, name, Some([]))
            <==> !IsMarker(name) && KeepsFiles(dir)
  {
    FirstFreeIs(dir);
    if IsMarker(name) {
      var dir' := Insert(dir, FirstFree(dir).value, Entry(name, start, want, 0));
      FindIs(dir', name);
      assert FileOf(dir', disk, name).None?;
    } else {
      NamedAdds(dir, disk, name, start, want);
    }
  }

  lemma NamedAdds(dir: Directory, disk: seq<Byte>, name: Name, start: Word, want: Word)
    requires |dir| == ENTRIES && FirstFree(dir).Some? && Find(dir, name).None? && !IsMarker(name)
    ensures FirstFree(dir).value < |dir|
    ensures Updated(Insert(dir, FirstFree(dir).value, Entry(name, start, want, 0)), disk, dir, disk, name, Some([]))
            <==> KeepsFiles(dir)
  {
    var e := Entry(name, start, want, 0);
    InsertListed(dir, e);
    FirstFreeIs(dir);
    var slot := FirstFree(dir).value;
    var dir' := Insert(dir, slot, e);
    FindIs(dir, name);
    assert IsFirst(dir', name, 0, slot);
    FindIs(dir', name);
    assert Contents(e, disk) == [];
    if KeepsFiles(dir) {
      forall n | n != name
        ensures FileOf(dir', disk, n) == FileOf(dir, disk, n)
      {
        FindSame(dir, dir', n);
        FindIs(dir, n);
      }
    } else {
      var k: nat :| Listed(dir, k);
      Vanishes(dir, dir', disk, k);
    }
  }

  /** A listed file whose name no record of `dir'` has is gone. */
  lemma Vanishes(dir: Directory, dir': Directory, disk: seq<Byte>, k: nat)
    requires Listed(dir, k) && forall j: nat :: Listed(dir', j) ==> dir'[j].name != dir[k].name
    ensures FileOf(dir, disk, dir[k].name).Some? && FileOf(dir', disk, dir[k].name).None?
  {
    FindIs(dir, dir[k].name);
    FindIs(dir', dir[k].name);
  }

  /** create of a name that is a marker keeps the files there are: for the empty name if and
      only if none is listed behind the first free record, for a name that starts with 0x01 if
      and only if the directory is not cut off. */
  lemma MarkerKeeps(dir: Directory, disk: seq<Byte>, name: Name, start: Word, want: Word)
    requires |dir| == ENTRIES && FirstFree(dir).Some? && IsMarker(name) && UniqueNames(dir)
    ensures FirstFree(dir).value < |dir|
    ensures var dir' := Insert(dir, FirstFree(dir).value, Entry(name, start, want, 0));
      (forall n :: FileOf(dir', disk, n) == FileOf(dir, disk, n))
      <==> if name == [] then forall k: nat :: Listed(dir, k) ==> k < FirstFree(dir).value else KeepsFiles(dir)
  {
    var e := Entry(name, start, want, 0);
    InsertMarker(dir, e);
    var slot := FirstFree(dir).value;
    var dir' := Insert(dir, slot, e);
    if forall k: nat :: Listed(dir, k) ==> Listed(dir', k) {
      forall n
        ensures FileOf(dir', disk, n) == FileOf(dir, disk, n)
      {
        FindSame(dir, dir', n);
        FindIs(dir, n);
      }
    } else {
      var k: nat :| Listed(dir, k) && !Listed(dir', k);
      Vanishes(dir, dir', disk, k);
    }
  }

  /** What qsort may leave of the used records. */
  ghost predicate Sorted(es: seq<Entry>, used: seq<Entry>) {
    multiset(es) == multiset(used) && SortedByCmp(es)
  }

  lemma {:induction false} AtMostOnce(s: seq<Entry>, x: Entry)
    requires forall i, j :: 0 <= i < j < |s| && s[i] == x ==> s[j] != x
    ensures multiset(s)[x] <= 1
  {
    if s != [] {
      assert s == [s[0]] + s[1..];
      AtMostOnce(s[1..], x);
      assert s[0] == x ==> x !in s[1..];
    }
  }

  lemma AtLeastTwice(s: seq<Entry>, i: nat, j: nat)
    requires i < j < |s| && s[i] == s[j]
    ensures multiset(s)[s[i]] >= 2
  {
    assert s == s[..i] + [s[i]] + s[i + 1..j] + [s[j]] + s[j + 1..];
  }

  lemma UsedOnce(dir: Directory, x: Entry)
    requires UniqueNames(dir) && IsLive(x)
    ensures multiset(dir[..End(dir)])[x] <= 1
  {
    var used := dir[..End(dir)];
    forall i, j | 0 <= i < j < |used| && used[i] == x
      ensures used[j] != x
    {
      assert Listed(dir, i);
    }
    AtMostOnce(used, x);
  }

  lemma SortedApart(dir: Directory, es: seq<Entry>, i: nat, j: nat)
    requires UniqueNames(dir) && Separate(dir) && multiset(es) == multiset(dir[..End(dir)])
    requires i < j < |es| && IsLive(es[i]) && IsLive(es[j])
    ensures Apart(es[i], es[j])
  {
    var used := dir[..End(dir)];
    UsedOnce(dir, es[i]);
    assert es[i] != es[j] by {
      if es[i] == es[j] {
        AtLeastTwice(es, i, j);
      }
    }
    assert es[i] in multiset(es) && es[j] in multiset(es);
    var a :| 0 <= a < |used| && used[a] == es[i];
    var b :| 0 <= b < |used| && used[b] == es[j];
    assert Listed(dir, a) && Listed(dir, b);
  }

  lemma SortedRecord(dir: Directory, es: seq<Entry>, blocks: nat, e: Entry)
    requires Sane(dir, blocks) && multiset(es) == multiset(dir[..End(dir)]) && e in es
    ensures !IsEnd(e) && Stored(e, blocks)
  {
    assert e in multiset(es) && e in multiset(dir[..End(dir)]);
    var k :| 0 <= k < End(dir) && dir[k] == e;
  }

  /** What qsort leaves of a sane directory. */
  lemma SortedOk(dir: Directory, es: seq<Entry>, blocks: nat)
    requires Sane(dir, blocks) && Sorted(es, dir[..End(dir)])
    ensures Ordered(es) && AllApart(es) && AllInRange(es, blocks) && forall e :: e in es ==> e.reserved >= 1
  {
    forall e | e in es
      ensures !IsEnd(e) && Stored(e, blocks)
    {
      SortedRecord(dir, es, blocks, e);
    }
    assert forall i :: 0 <= i < |es| ==> es[i] in es;
    CmpSorts(es);
    forall i, j | 0 <= i < j < |es| && IsLive(es[i]) && IsLive(es[j])
      ensures Apart(es[i], es[j])
    {
      SortedApart(dir, es, i, j);
    }
  }

  lemma SameRecords(es: seq<Entry>, used: seq<Entry>)
    requires multiset(es) == multiset(used)
    ensures forall e :: e in es <==> e in used
  {
    assert forall e :: e in es <==> e in multiset(es);
    assert forall e :: e in used <==> e in multiset(es);
  }

  /** No deleted record is followed by `want` blocks up to the end of the disk. */
  ghost predicate NoLure(used: seq<Entry>, blocks: nat, want: nat) {
    forall e :: e in used && IsDeleted(e) ==> blocks - 1 - (e.start + e.reserved) < want
  }

  /** With a 0x00 record, whatever order qsort leaves: create answers first-fit exactly when
      there is room or no deleted record lures the scan. */
  lemma CreateFirstFit(dir: Directory, es: seq<Entry>, blocks: nat, want: Word)
    requires Sane(dir, blocks) && End(dir) < |dir| && Sorted(es, dir[..End(dir)])
    ensures var used := dir[..End(dir)];
      FirstFit(used, Scan(es, 0, 1, blocks, want), blocks, want)
      <==> Room(used, blocks, want) || NoLure(used, blocks, want)
  {
    SortedOk(dir, es, blocks);
    assert forall i :: 0 <= i < |es| ==> es[i] in es;
    ScanExact(es, blocks, want);
    SameRecords(es, dir[..End(dir)]);
    SameFit(es, dir[..End(dir)], blocks, want);
  }

  lemma SameFit(es: seq<Entry>, used: seq<Entry>, blocks: nat, want: Word)
    requires forall e :: e in es <==> e in used
    ensures forall s: Word :: FirstFit(es, s, blocks, want) <==> FirstFit(used, s, blocks, want)
    ensures Room(es, blocks, want) <==> Room(used, blocks, want)
    ensures AllInRange(es, blocks) && blocks < WORD ==>
              (NoLure(used, blocks, want) <==> NoneTempts(es, 0, blocks, want))
  {
    assert forall k :: FreeAt(es, k, blocks, want) <==> FreeAt(used, k, blocks, want);
  }

  /** Without a 0x00 record nothing is scanned: the answer is block 1, and right exactly
      when that much is free from there on or does not fit the disk at all. */
  lemma CreateUnmarked(dir: Directory, blocks: nat, want: Word)
    requires Sane(dir, blocks) && End(dir) == |dir|
    ensures FirstFit(dir, Scan([], 0, 1, blocks, want), blocks, want)
            <==> want > blocks - 2 || forall e :: e in dir && IsLive(e) ==> 1 + want <= e.start
  {
    ScanNothing(blocks, want);
    forall e | e in dir
      ensures 1 <= e.start && e.reserved >= 1
    {
      var i :| 0 <= i < |dir| && dir[i] == e;
    }
    if want <= blocks - 2 {
      assert forall k :: FreeAt(dir, k, blocks, want) ==> 1 <= k;
      assert FreeAt(dir, 1, blocks, want) <==> forall e :: e in dir && IsLive(e) ==> 1 + want <= e.start;
    } else {
      assert forall k :: !FreeAt(dir, k, blocks, want);
    }
  }

  lemma ScanNothing(blocks: nat, want: Word)
    requires 3 <= blocks < WORD
    ensures Scan([], 0, 1, blocks, want) == if want <= blocks - 2 then 1 else 0
  {
  }

  /** Exactly then the scan answers first-fit; see CreateFirstFit and CreateUnmarked. */
  ghost predicate Right(dir: Directory, blocks: nat, want: Word) {
    var used := dir[..End(dir)];
    if End(dir) < |dir| then Room(used, blocks, want) || NoLure(used, blocks, want)
    else want > blocks - 2 || forall e :: e in used && IsLive(e) ==> 1 + want <= e.start
  }

  lemma CreateRight(dir: Directory, es: seq<Entry>, blocks: nat, want: Word)
    requires Sane(dir, blocks) && Sorted(es, dir[..NumUsed(dir)])
    ensures FirstFit(dir[..End(dir)], Scan(es, 0, 1, blocks, want), blocks, want) <==> Right(dir, blocks, want)
  {
    if End(dir) < |dir| {
      CreateFirstFit(dir, es, blocks, want);
    } else {
      CreateUnmarked(dir, blocks, want);
      assert dir[..End(dir)] == dir;
      assert |multiset(es)| == 0;
    }
  }

  lemma InsertFree(dir: Directory, e: Entry, blocks: nat)
    requires Sane(dir, blocks) && FirstFree(dir).Some? && IsLive(e) && Stored(e, blocks)
    requires FreeAt(dir[..End(dir)], e.start, blocks, e.reserved)
    requires forall k: nat :: Listed(dir, k) ==> dir[k].name != e.name
    ensures FirstFree(dir).value < |dir| && Sane(Insert(dir, FirstFree(dir).value, e), blocks)
  {
    InsertListed(dir, e);
    InsertStored(dir, e, blocks);
    InsertSeparate(dir, e, blocks);
  }

  lemma InsertSeparate(dir: Directory, e: Entry, blocks: nat)
    requires |dir| == ENTRIES && Separate(dir) && FirstFree(dir).Some? && IsLive(e)
    requires FreeAt(dir[..End(dir)], e.start, blocks, e.reserved)
    ensures FirstFree(dir).value < |dir| && Separate(Insert(dir, FirstFree(dir).value, e))
  {
    var used := dir[..End(dir)];
    InsertListed(dir, e);
    forall k: nat | Listed(dir, k)
      ensures Apart(e, dir[k])
    {
      assert used[k] in used;
    }
  }

  lemma InsertTaken(dir: Directory, e: Entry, blocks: nat)
    requires Sane(dir, blocks) && KeepsFiles(dir) && FirstFree(dir).Some? && IsLive(e)
    requires FirstFree(dir).value < |dir| && Sane(Insert(dir, FirstFree(dir).value, e), blocks)
    ensures FreeAt(dir[..End(dir)], e.start, blocks, e.reserved)
  {
    var slot, used := FirstFree(dir).value, dir[..End(dir)];
    InsertListed(dir, e);
    var dir' := Insert(dir, slot, e);
    forall x | x in used && IsLive(x)
      ensures e.start + e.reserved <= x.start || x.start + x.reserved <= e.start
    {
      var k :| 0 <= k < |used| && used[k] == x;
      assert Listed(dir, k);
      InsertApart(dir, e, k);
    }
    assert Listed(dir', slot);
  }

  lemma InsertApart(dir: Directory, e: Entry, k: nat)
    requires |dir| == ENTRIES && KeepsFiles(dir) && FirstFree(dir).Some? && IsLive(e) && Listed(dir, k)
    requires FirstFree(dir).value < |dir| && Separate(Insert(dir, FirstFree(dir).value, e))
    ensures Apart(e, dir[k])
  {
    FirstFreeIs(dir);
    InsertListed(dir, e);
    var slot := FirstFree(dir).value;
    assert Listed(Insert(dir, slot, e), slot) && Listed(Insert(dir, slot, e), k) && k != slot;
  }

  /** A new record that cuts nothing off keeps the directory sane exactly when its extent is
      free.  A deleted one only has to lie on the disk. */
  lemma InsertSane(dir: Directory, name: Name, start: Word, want: Word, blocks: nat)
    requires Sane(dir, blocks) && FirstFree(dir).Some? && (IsMarker(name) || KeepsFiles(dir))
    requires Find(dir, name).None? && want >= 1
    ensures FirstFree(dir).value < |dir|
    ensures var e := Entry(name, start, want, 0);
      Sane(Insert(dir, FirstFree(dir).value, e), blocks)
      <==> if IsEnd(e) then true else if IsDeleted(e) then InRange(e, blocks)
           else FreeAt(dir[..End(dir)], start, blocks, want)
  {
    var e := Entry(name, start, want, 0);
    FirstFreeIs(dir);
    FindIs(dir, name);
    if IsMarker(name) {
      MarkerSane(dir, e, blocks);
    } else {
      NamedSane(dir, e, blocks);
    }
  }

  lemma NamedSane(dir: Directory, e: Entry, blocks: nat)
    requires Sane(dir, blocks) && FirstFree(dir).Some? && KeepsFiles(dir) && IsLive(e) && e.reserved >= 1 && e.size == 0
    requires forall k: nat :: Listed(dir, k) ==> dir[k].name != e.name
    ensures FirstFree(dir).value < |dir|
    ensures Sane(Insert(dir, FirstFree(dir).value, e), blocks) <==> FreeAt(dir[..End(dir)], e.start, blocks, e.reserved)
  {
    FirstFreeIs(dir);
    if Sane(Insert(dir, FirstFree(dir).value, e), blocks) {
      InsertTaken(dir, e, blocks);
    }
    if FreeAt(dir[..End(dir)], e.start, blocks, e.reserved) {
      InsertFree(dir, e, blocks);
    }
  }

  lemma MarkerSane(dir: Directory, e: Entry, blocks: nat)
    requires Sane(dir, blocks) && FirstFree(dir).Some? && IsMarker(e.name) && e.reserved >= 1 && e.size == 0
    ensures FirstFree(dir).value < |dir|
    ensures Sane(Insert(dir, FirstFree(dir).value, e), blocks) <==> IsEnd(e) || InRange(e, blocks)
  {
    InsertMarker(dir, e);
    FirstFreeIs(dir);
    if IsDeleted(e) { InsertEndAt(dir, FirstFree(dir).value, e); }
  }

  lemma InsertStored(dir: Directory, e: Entry, blocks: nat)
    requires |dir| == ENTRIES && FirstFree(dir).Some? && IsLive(e) && Stored(e, blocks)
    requires forall i :: 0 <= i < End(dir) ==> Stored(dir[i], blocks)
    ensures FirstFree(dir).value < |dir|
    ensures var dir' := Insert(dir, FirstFree(dir).value, e);
      forall i :: 0 <= i < End(dir') ==> Stored(dir'[i], blocks)
  {
    InsertListed(dir, e);
  }

  /** create on a sane directory with a free record, when no listed file is cut off: it stays
      sane if and only if the scan is right. Then the new file gets the lowest place that
      is large enough, it is the only change, and it fails only for lack of such a place.
      With a marker for a name it reports success and adds no file. */
  lemma CreateSafe(dir: Directory, disk: seq<Byte>, name: Name, maxsize: Word, es: seq<Entry>, blocks: nat)
    requires Sane(dir, blocks) && Sorted(es, dir[..NumUsed(dir)]) && FirstFree(dir).Some?
    requires (IsMarker(name) || KeepsFiles(dir)) && Find(dir, name).None? && Wanted(maxsize) >= 1
    ensures var (used, want) := (dir[..End(dir)], Wanted(maxsize));
      var (outcome, dir') := Create(dir, name, maxsize, es, blocks);
      && (!IsMarker(name) ==> (Sane(dir', blocks) <==> Right(dir, blocks, want)))
      && (outcome == Created || outcome == NoRoom)
      && (outcome == NoRoom ==> dir' == dir && !Room(used, blocks, want))
      && (outcome == Created ==> (Updated(dir', disk, dir, disk, name, Some([])) <==> !IsMarker(name)))
      && (outcome == Created && Sane(dir', blocks) && !IsMarker(name) ==>
            FileStart(dir', name) != 0 && FirstFit(used, FileStart(dir', name), blocks, want))
      && (outcome == Created && !IsMarker(name) && maxsize < WORD - 1 ==>
            exists k: nat :: IsFirst(dir', name, 0, k) && LeastFor(dir'[k].reserved, maxsize))
  {
    var used, want := dir[..End(dir)], Wanted(maxsize);
    var start := Scan(es, 0, 1, blocks, want);
    CreateRight(dir, es, blocks, want);
    InsertSane(dir, name, start, want, blocks);
    if start != 0 {
      CreateAdds(dir, disk, name, start, want);
      if !IsMarker(name) { FindInserted(dir, name, start, want); }
      CreateSays(dir, name, maxsize, es, blocks);
      FitIsFree(dir, es, blocks, want);
    } else {
      NoAnswer(dir, es, blocks, want);
    }
  }

  /** A place that the scan finds and that is free is the first one. */
  lemma FitIsFree(dir: Directory, es: seq<Entry>, blocks: nat, want: Word)
    requires Sane(dir, blocks) && Sorted(es, dir[..NumUsed(dir)]) && Scan(es, 0, 1, blocks, want) != 0
    ensures var s := Scan(es, 0, 1, blocks, want);
      FirstFit(dir[..End(dir)], s, blocks, want) <==> FreeAt(dir[..End(dir)], s, blocks, want)
  {
    CreateRight(dir, es, blocks, want);
    if End(dir) == |dir| {
      assert |multiset(es)| == 0;
      ScanNothing(blocks, want);
    }
  }

  /** The scan fails only if there is no room. */
  lemma NoAnswer(dir: Directory, es: seq<Entry>, blocks: nat, want: Word)
    requires Sane(dir, blocks) && Sorted(es, dir[..NumUsed(dir)]) && Scan(es, 0, 1, blocks, want) == 0
    ensures !Room(dir[..End(dir)], blocks, want)
  {
    CreateRight(dir, es, blocks, want);
    if End(dir) == |dir| {
      assert |multiset(es)| == 0;
      ScanNothing(blocks, want);
    }
  }

  /** The first block of a file. */
  function FileStart(dir: Directory, name: Name): Word {
    FindFromIs(dir, name, 0);
    if Find(dir, name).None? then 0 else dir[Find(dir, name).value].start
  }

  lemma FindInserted(dir: Directory, name: Name, start: Word, want: Word)
    requires |dir| == ENTRIES && FirstFree(dir).Some? && Find(dir, name).None? && !IsMarker(name)
    ensures FirstFree(dir).value < |dir|
    ensures FileStart(Insert(dir, FirstFree(dir).value, Entry(name, start, want, 0)), name) == start
    ensures IsFirst(Insert(dir, FirstFree(dir).value, Entry(name, start, want, 0)), name, 0, FirstFree(dir).value)
  {
    InsertListed(dir, Entry(name, start, want, 0));
    FindIs(dir, name);
    var dir' := Insert(dir, FirstFree(dir).value, Entry(name, start, want, 0));
    FindIs(dir', name);
    assert IsFirst(dir', name, 0, FirstFree(dir).value);
  }

  // Whole runs

  datatype Op =
    | OpCreate(name: Name, maxsize: Word, sorted: seq<Entry>)
    | OpWrite(name: Name, content: seq<Byte>)
    | OpDelete(name: Name)

  datatype Volume = Volume(dir: Directory, disk: seq<Byte>)

  ghost predicate VolumeOk(v: Volume, blocks: nat) {
    Sane(v.dir, blocks) && |v.disk| >= blocks * BLOCK
  }

  /** A create that main lets through, with a name that fits its field and what qsort hands
      back; main does not look at the name. write and delete may be asked for anything. */
  ghost predicate Asked(v: Volume, op: Op) {
    op.OpCreate? ==> Sorted(op.sorted, v.dir[..NumUsed(v.dir)]) && InField(op.name) && Wanted(op.maxsize) >= 1
  }

  /** A create that gets as far as the scan finds it right; unless it fails there, its name is no
      marker and it cuts nothing off. */
  ghost predicate Guarded(v: Volume, op: Op, blocks: nat) {
    op.OpCreate? && Find(v.dir, op.name).None? && FirstFree(v.dir).Some? ==>
      var want := Wanted(op.maxsize);
      && Right(v.dir, blocks, want)
      && ((!IsMarker(op.name) && KeepsFiles(v.dir)) || !Room(v.dir[..End(v.dir)], blocks, want))
  }

  /** One operation and whether it reports success. */
  function Apply(v: Volume, op: Op, blocks: nat): (r: (Volume, bool))
    requires 3 <= blocks < WORD
    ensures |r.0.disk| == |v.disk|
  {
    match op
    case OpCreate(name, maxsize, sorted) =>
      var (outcome, dir) := Create(v.dir, name, maxsize, sorted, blocks);
      (Volume(dir, v.disk), outcome == Created)
    case OpWrite(name, content) =>
      FindFromIs(v.dir, name, 0);
      var i := Find(v.dir, name);
      if i.None? || v.dir[i.value].reserved * BLOCK < |content| || v.dir[i.value].start * BLOCK + |content| > |v.disk|
         || |content| >= WORD
      then (v, false)
      else (Volume(v.dir[i.value := v.dir[i.value].(size := |content|)],
                   Overwrite(v.disk, v.dir[i.value].start * BLOCK, content)), true)
    case OpDelete(name) => (Volume(Delete(v.dir, name), v.disk), Find(v.dir, name).Some?)
  }

  type Files = map<Name, seq<Byte>>

  /** The same operation on a map from names to contents. */
  function OnMap(m: Files, op: Op, success: bool): Files {
    if !success then m else
      match op
      case OpCreate(name, _, _) => m[name := []]
      case OpWrite(name, content) => m[name := content]
      case OpDelete(name) => m - {name}
  }

  ghost predicate Represents(v: Volume, m: Files) {
    forall n :: FileOf(v.dir, v.disk, n) == if n in m then Some(m[n]) else None
  }

  lemma CreateRefinesIff(v: Volume, op: Op, blocks: nat, m: Files)
    requires VolumeOk(v, blocks) && Represents(v, m) && op.OpCreate? && Asked(v, op)
    requires Find(v.dir, op.name).None? && FirstFree(v.dir).Some?
    ensures var (v', ok) := Apply(v, op, blocks);
      VolumeOk(v', blocks) && Represents(v', OnMap(m, op, ok)) <==> Guarded(v, op, blocks)
  {
    var dir, want := v.dir, Wanted(op.maxsize);
    var start := Scan(op.sorted, 0, 1, blocks, want);
    CreateRight(dir, op.sorted, blocks, want);
    if start == 0 {
      NoAnswer(dir, op.sorted, blocks, want);
    } else {
      FirstFreeIs(dir);
      var dir' := Insert(dir, FirstFree(dir).value, Entry(op.name, start, want, 0));
      CreateAdds(dir, v.disk, op.name, start, want);
      UpdatedOnMap(v, dir', op.name, m);
      FitIsFree(dir, op.sorted, blocks, want);
      if !IsMarker(op.name) && KeepsFiles(dir) {
        CreateSafe(dir, v.disk, op.name, op.maxsize, op.sorted, blocks);
      }
    }
  }

  lemma UpdatedOnMap(v: Volume, dir': Directory, name: Name, m: Files)
    requires Represents(v, m)
    ensures Represents(Volume(dir', v.disk), m[name := []]) <==> Updated(dir', v.disk, v.dir, v.disk, name, Some([]))
  {
  }

  /** Of an operation that main may ask for, the guard is exactly what makes the volume follow the map. */
  lemma StepRefines(v: Volume, op: Op, blocks: nat, m: Files)
    requires VolumeOk(v, blocks) && Represents(v, m) && Asked(v, op)
    ensures var (v', ok) := Apply(v, op, blocks);
      VolumeOk(v', blocks) && Represents(v', OnMap(m, op, ok)) <==> Guarded(v, op, blocks)
  {
    FindIs(v.dir, op.name);
    match op
    case OpCreate(name, maxsize, sorted) =>
      if Find(v.dir, name).None? && FirstFree(v.dir).Some? {
        CreateRefinesIff(v, op, blocks, m);
      }
    case OpWrite(name, content) =>
      var i := Find(v.dir, name);
      if i.Some? && |content| <= v.dir[i.value].reserved * BLOCK {
        WriteUpdates(v.dir, v.disk, name, content, blocks);
      }
    case OpDelete(name) =>
      DeleteRemoves(v.dir, v.disk, name);
      DeleteKeepsSane(v.dir, name, blocks);
  }

  ghost predicate AskedRun(v: Volume, ops: seq<Op>, blocks: nat)
    requires 3 <= blocks < WORD
    decreases ops
  {
    ops != [] ==> Asked(v, ops[0]) && AskedRun(Apply(v, ops[0], blocks).0, ops[1..], blocks)
  }

  ghost predicate GuardedRun(v: Volume, ops: seq<Op>, blocks: nat)
    requires 3 <= blocks < WORD
    decreases ops
  {
    ops != [] ==> Guarded(v, ops[0], blocks) && GuardedRun(Apply(v, ops[0], blocks).0, ops[1..], blocks)
  }

  /** Every volume of the run is sane and is the map, as far as the run has got. */
  ghost predicate Follows(v: Volume, ops: seq<Op>, blocks: nat, m: Files)
    requires 3 <= blocks < WORD
    decreases ops
  {
    && VolumeOk(v, blocks) && Represents(v, m)
    && (ops != [] ==>
          var (v', ok) := Apply(v, ops[0], blocks);
          Follows(v', ops[1..], blocks, OnMap(m, ops[0], ok)))
  }

  /** Main result: over any run of operations that main may ask for, the volume is the map all
      the way exactly when every operation meets its guard. */
  lemma {:induction false} RunRefines(v: Volume, ops: seq<Op>, blocks: nat, m: Files)
    requires VolumeOk(v, blocks) && Represents(v, m) && AskedRun(v, ops, blocks)
    ensures Follows(v, ops, blocks, m) <==> GuardedRun(v, ops, blocks)
    decreases ops
  {
    if ops != [] {
      StepRefines(v, ops[0], blocks, m);
      if Guarded(v, ops[0], blocks) {
        var (v', ok) := Apply(v, ops[0], blocks);
        RunRefines(v', ops[1..], blocks, OnMap(m, ops[0], ok));
      }
    }
  }
}
