/** Directories on which create (bmfs.c) loses files. */
module BmfsFailures {
  import opened Octets
  import opened Sync
  import opened Bmfs
  import opened BmfsFiles

  /** One file of one block is listed, behind a deleted record. */
  const Gone := Entry([1, 66], 1, 1, 0)
  const Kept := Entry([65], 2, 1, 0)

  ghost predicate HasGap(dir: Directory) {
    |dir| == ENTRIES && dir[0] == Gone && dir[1] == Kept && forall i :: 2 <= i < ENTRIES ==> IsEnd(dir[i])
  }

  lemma GapSane(dir: Directory)
    requires HasGap(dir)
    ensures End(dir) == 2 && dir[..2] == [Gone, Kept] && Sane(dir, 10) && FirstFree(dir) == Some(0)
    ensures forall k: nat :: Listed(dir, k) <==> k == 1
  {
    EndIs(dir, 2);
    FirstFreeIs(dir);
  }

  lemma GapScan()
    ensures Sorted([Kept, Gone], [Gone, Kept]) && Scan([Kept, Gone], 0, 1, 10, 1) == 1
    ensures FreeAt([Gone, Kept], 1, 10, 1)
  {
  }

  /** create with an empty name, on a disk of ten blocks: it reports success, adds nothing, and
      the file `Kept` vanishes, although the scan is right and nothing is cut off by a full
      directory. */
  lemma EmptyNameLoses() returns (dir: Directory)
    ensures HasGap(dir) && Sane(dir, 10) && Sorted([Kept, Gone], dir[..NumUsed(dir)])
    ensures Right(dir, 10, 1) && KeepsFiles(dir) && Find(dir, Kept.name) == Some(1)
    ensures var (outcome, dir') := Create(dir, [], 2, [Kept, Gone], 10);
      outcome == Created && forall n :: Find(dir', n).None?
  {
    dir := [Gone, Kept] + seq(ENTRIES - 2, _ => Entry([], 0, 0, 0));
    GapSane(dir);
    GapScan();
    FindIs(dir, Kept.name);
    FindIs(dir, []);
    assert IsFirst(dir, Kept.name, 0, 1);
    var e := Entry([], 1, 1, 0);
    InsertMarker(dir, e);
    forall n
      ensures Find(Insert(dir, 0, e), n).None?
    {
      FindIs(Insert(dir, 0, e), n);
    }
  }

  /** A full directory: the first record is deleted, and each of the others is a file of one
      block right behind the one before. */
  function FullRecord(i: nat): Entry
    requires i < ENTRIES
  {
    Entry([if i == 0 then 1 else (i + 2) as Byte], i + 1, 1, 0)
  }

  ghost predicate IsFull(dir: Directory) {
    |dir| == ENTRIES && forall i :: 0 <= i < ENTRIES ==> dir[i] == FullRecord(i)
  }

  lemma FullSane(dir: Directory)
    requires IsFull(dir)
    ensures End(dir) == ENTRIES && Sane(dir, 100) && dir[..NumUsed(dir)] == [] && dir[..End(dir)] == dir
    ensures forall k: nat :: Listed(dir, k) <==> 1 <= k < ENTRIES
  {
    EndIs(dir, ENTRIES);
    forall i, j | 0 <= i < j < ENTRIES
      ensures dir[i].name != dir[j].name && Apart(dir[i], dir[j])
    {
      assert dir[i] == FullRecord(i) && dir[j] == FullRecord(j);
      assert dir[i].name[0] != dir[j].name[0];
    }
  }

  /** Without a 0x00 record the scan answers block 1. A file of two blocks would lie there over
      the first listed one, although there is room elsewhere. */
  lemma FullScanWrong() returns (dir: Directory)
    ensures IsFull(dir) && Sane(dir, 100) && Scan([], 0, 1, 100, 2) == 1
    ensures Room(dir, 100, 2) && !FreeAt(dir, 1, 100, 2) && !Right(dir, 100, 2)
  {
    dir := seq(ENTRIES, i requires 0 <= i < ENTRIES => FullRecord(i));
    FullSane(dir);
    ScanNothing(100, 2);
    assert dir[1] == FullRecord(1);
    forall e | e in dir
      ensures e.start + e.reserved <= 70
    {
      var i :| 0 <= i < ENTRIES && dir[i] == e;
    }
    assert FreeAt(dir, 70, 100, 2);
  }

  /** A file of one block fits there, and create cuts all other files off. */
  lemma FullDirectoryLoses(dir: Directory, name: Name)
    requires IsFull(dir) && !IsMarker(name) && Find(dir, name).None?
    ensures Sane(dir, 100) && Sorted([], dir[..NumUsed(dir)]) && Right(dir, 100, 1) && !KeepsFiles(dir)
    ensures var (outcome, dir') := Create(dir, name, 2, [], 100);
      && outcome == Created
      && forall k: nat :: Listed(dir, k) ==> Find(dir, dir[k].name).Some? && Find(dir', dir[k].name).None?
  {
    FullSane(dir);
    ScanNothing(100, 1);
    FirstFreeIs(dir);
    assert IsDeleted(dir[0]) && Listed(dir, 1);
    forall e | e in dir && IsLive(e)
      ensures 2 <= e.start
    {
      var i :| 0 <= i < ENTRIES && dir[i] == e;
    }
    OthersLost(dir, Entry(name, 1, 1, 0));
  }

  lemma OthersLost(dir: Directory, e: Entry)
    requires |dir| == ENTRIES && Truncates(dir) && FirstFree(dir) == Some(0) && IsLive(e)
    requires Find(dir, e.name).None?
    ensures var dir' := Insert(dir, 0, e);
      forall k: nat :: Listed(dir, k) ==> Find(dir, dir[k].name).Some? && Find(dir', dir[k].name).None?
  {
    InsertListed(dir, e);
    FindIs(dir, e.name);
    forall k: nat | Listed(dir, k)
      ensures Find(dir, dir[k].name).Some? && Find(Insert(dir, 0, e), dir[k].name).None?
    {
      Vanishes(dir, Insert(dir, 0, e), [], k);
    }
  }
}
