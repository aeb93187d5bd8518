/** The BMFS utility at work on a disk image (bmfs.c): the directory buffer is edited in
    place, the disk is read and written byte by byte. */
module BmfsDisk {
  import opened Octets
  import opened Sync
  import opened Bmfs
  import opened BmfsFiles

  datatype WriteOutcome = Written | NotFound | TooLarge

  class Disk {
    const directory: array<Entry>
    const disk: array<Byte>
    /** Blocks on the disk. */
    const blocks: nat
    /** The directory as it is on the disk. */
    var flushed: seq<Entry>

    /** What any directory buffer satisfies. */
    predicate Sized() {
      directory.Length == ENTRIES && 3 <= blocks < 0x8000_0000 && disk.Length >= blocks * BLOCK
    }

    ghost predicate Valid()
      reads this, directory
    {
      Sized() && Sane(directory[..], blocks) && flushed == directory[..]
    }

    constructor (directory: array<Entry>, disk: array<Byte>, blocks: nat)
      ensures this.directory == directory && this.disk == disk && this.blocks == blocks
      ensures flushed == directory[..]
    {
      this.directory, this.disk, this.blocks, flushed := directory, disk, blocks, directory[..];
    }

    /** findfile */
    method FindFile(filename: Name) returns (found: bool, e: Entry, slot: nat)
      requires Sized()
      ensures found == Find(directory[..], filename).Some?
      ensures found ==> slot < ENTRIES && Find(directory[..], filename) == Some(slot) && e == directory[slot]
    {
      var tint := 0;
      e, slot := directory[0], 0;
      while tint < 64
        invariant tint <= 64 ==> Find(directory[..], filename) == FindFrom(directory[..], filename, tint)
        invariant tint > 64 ==> Find(directory[..], filename) == None
      {
        var entry := directory[tint];
        if IsEnd(entry) {
          tint := 64;
        } else if IsDeleted(entry) {
        } else if filename == entry.name {
          return true, entry, tint;
        }
        tint := tint + 1;
      }
      found := false;
    }

    /** The first loop of create; -1 stands for no free record. */
    method CountUsed() returns (numUsed: nat, firstFree: int)
      requires Sized()
      ensures numUsed == NumUsed(directory[..])
      ensures firstFree == var f := FirstFree(directory[..]); if f.Some? then f.value else -1
    {
      ghost var dir := directory[..];
      numUsed, firstFree := 0, -1;
      var tint := 0;
      while tint < 64
        invariant 0 <= tint <= 64 && (forall i :: 0 <= i < tint ==> !IsEnd(dir[i])) && numUsed == 0
        invariant tint <= End(dir)
        invariant firstFree == var d := FirstDeleted(dir, 0, tint); if d.Some? then d.value else -1
      {
        DeletedFurther(dir, 0, tint);
        if IsEnd(directory[tint]) {
          EndIs(dir, tint);
          numUsed := tint;
          if firstFree == -1 {
            firstFree := tint;
          }
          return;
        } else if IsDeleted(directory[tint]) {
          if firstFree == -1 {
            firstFree := tint;
          }
        }
        tint := tint + 1;
      }
    }

    /** The second loop of create, over the sorted copy of the used records. */
    method ScanCopy(copy: seq<Entry>, want: Word) returns (newStart: Word)
      requires Sized()
      ensures newStart == Scan(copy, 0, 1, blocks, want)
    {
      newStart := 0;
      var prevEnd: Word := 1;
      var tint := 0;
      while tint < |copy| + 1
        invariant 0 <= tint <= |copy| + 1 && newStart == 0
        invariant Scan(copy, 0, 1, blocks, want)
                  == if tint <= |copy| then Scan(copy, tint, prevEnd, blocks, want) else 0
      {
        var thisStart: Word;
        if tint == |copy| || IsDeleted(copy[tint]) {
          thisStart := blocks - 1;
        } else {
          thisStart := copy[tint].start;
        }
        if Sub(thisStart, prevEnd) >= want {
          newStart := prevEnd;
          break;
        }
        if tint < |copy| {
          prevEnd := EndOf(copy[tint]);
        }
        tint := tint + 1;
      }
    }

    /** The new record, and a 0x00 record behind it if it takes the place of the old one. */
    method PutRecord(slot: nat, numUsed: nat, e: Entry)
      requires Sized() && slot < ENTRIES
      modifies directory
      ensures directory[..] == Put(old(directory[..]), numUsed, slot, e)
      ensures directory[slot] == e
    {
      directory[slot] := e;
      if slot == numUsed && numUsed + 1 < 64 {
        directory[numUsed + 1] := directory[numUsed + 1].(name := []);
      }
    }

    /** create; `sorted` is the copy of the used records after qsort. */
    method CreateFile(filename: Name, maxsize: Word, sorted: seq<Entry>) returns (outcome: Outcome)
      requires Sized() && |filename| < NAME_SIZE
      requires var dir := directory[..]; Sorted(sorted, dir[..NumUsed(dir)])
      modifies directory, this`flushed
      ensures (outcome, directory[..]) == Create(old(directory[..]), filename, maxsize, sorted, blocks)
      ensures flushed == if outcome == Created then directory[..] else old(flushed)
      ensures outcome == Created && maxsize < WORD - 1 ==>
                var f := FirstFree(old(directory[..]));
                f.Some? && f.value < ENTRIES && LeastFor(directory[f.value].reserved, maxsize)
    {
      ghost var dir := directory[..];
      var size := maxsize;
      if size % 2 != 0 {
        size := Add(size, 1);
      }
      var found, _, _ := FindFile(filename);
      if found {
        return Exists;
      }
      var want := size / 2;
      assert want == Wanted(maxsize);
      var numUsed, slot := CountUsed();
      if slot == -1 {
        return NoRecord;
      }
      var start := ScanCopy(sorted, want);
      if start == 0 {
        return NoRoom;
      }
      FirstFreeIs(dir);
      if maxsize < WORD - 1 { WantedLeast(maxsize); }
      PutRecord(slot, numUsed, Entry(filename, start, want, 0));
      flushed := directory[..];
      return Created;
    }

    /** read: the bytes go to a local file. The counter is a C int, hence the bound on what is copied. */
    method ReadFile(filename: Name) returns (r: Option<seq<Byte>>)
      requires Valid()
      requires (FindFromIs(directory[..], filename, 0); var i := Find(directory[..], filename);
                i.Some? ==> directory[i.value].size < 0x8000_0000)
      ensures r == FileOf(directory[..], disk[..], filename)
    {
      FindIs(directory[..], filename);
      var found, e, slot := FindFile(filename);
      if !found {
        return None;
      }
      var at := e.start * BLOCK;
      var out: seq<Byte> := [];
      var tint := 0;
      while tint < e.size
        invariant 0 <= tint <= e.size && out == disk[at..at + tint]
      {
        out := out + [disk[at + tint]];
        tint := tint + 1;
      }
      return Some(out);
    }

    /** The copying loop of write. */
    method Copy(at: nat, content: seq<Byte>)
      requires at + |content| <= disk.Length
      modifies disk
      ensures disk[..] == Overwrite(old(disk[..]), at, content)
    {
      var tint := 0;
      while tint < |content|
        invariant 0 <= tint <= |content|
        invariant forall k :: 0 <= k < disk.Length ==>
                    disk[k] == if at <= k < at + tint then content[k - at] else old(disk[k])
      {
        disk[at + tint] := content[tint];
        tint := tint + 1;
      }
    }

    /** write: `content` is the local file. What is copied is counted by a C int. */
    method WriteFile(filename: Name, content: seq<Byte>) returns (r: WriteOutcome)
      requires Valid() && (|content| <= Capacity(directory[..], filename) ==> |content| < 0x8000_0000)
      modifies directory, disk, this`flushed
      ensures Valid()
      ensures r == NotFound <==> FileOf(old(directory[..]), old(disk[..]), filename).None?
      ensures r == TooLarge <==> Capacity(old(directory[..]), filename) < |content| && r != NotFound
      ensures r != Written ==> directory[..] == old(directory[..]) && disk[..] == old(disk[..])
      ensures r == Written ==>
                Updated(directory[..], disk[..], old(directory[..]), old(disk[..]), filename, Some(content))
      ensures var v := Volume(old(directory[..]), old(disk[..]));
        (Volume(directory[..], disk[..]), r == Written) == Apply(v, OpWrite(filename, content), blocks)
    {
      ghost var dir := directory[..];
      FindIs(dir, filename);
      var found, e, slot := FindFile(filename);
      if !found {
        return NotFound;
      }
      if e.reserved * BLOCK % WORD < |content| {
        return TooLarge;
      }
      WriteUpdates(dir, disk[..], filename, content, blocks);
      Copy(e.start * BLOCK, content);
      directory[slot] := e.(size := |content|);
      flushed := directory[..];
      return Written;
    }

    /** delete */
    method DeleteFile(filename: Name)
      requires Valid()
      modifies directory, this`flushed
      ensures Valid() && directory[..] == Delete(old(directory[..]), filename)
      ensures Updated(directory[..], disk[..], old(directory[..]), disk[..], filename, None)
    {
      ghost var dir := directory[..];
      FindIs(dir, filename);
      DeleteRemoves(dir, disk[..], filename);
      DeleteKeepsSane(dir, filename, blocks);
      var found, e, slot := FindFile(filename);
      if found {
        directory[slot] := e.(name := e.name[0 := 1]);
        flushed := directory[..];
      }
    }
  }

  /** The bytes reserved for a file. */
  function Capacity(dir: Directory, name: Name): nat {
    FindFromIs(dir, name, 0);
    if Find(dir, name).None? then 0 else dir[Find(dir, name).value].reserved * BLOCK
  }

  lemma {:induction false} DeletedFurther(dir: Directory, i: nat, n: nat)
    requires i <= n < |dir|
    ensures FirstDeleted(dir, i, n + 1) ==
            if FirstDeleted(dir, i, n).Some? then FirstDeleted(dir, i, n)
            else if IsDeleted(dir[n]) then Some(n)
            else None
    decreases n - i
  {
    if i < n && !IsDeleted(dir[i]) {
      DeletedFurther(dir, i + 1, n);
    }
  }
}
