/** The BMFS directory and the extent allocator of `create` (bmfs.c). */
module Bmfs {
  import opened Arith
  import opened Octets

  const ENTRIES := 64
  const NAME_SIZE := 32
  const WORD: int := 0x1_0000_0000_0000_0000

  type Word = x: int | 0 <= x < WORD
  type Name = seq<Byte>

  /** A directory record. The name is the bytes before the terminating NUL. */
  datatype Entry = Entry(name: Name, start: Word, reserved: Word, size: Word)

  /** The 0x00 record. */
  predicate IsEnd(e: Entry) {
    e.name == []
  }

  /** The 0x01 record. */
  predicate IsDeleted(e: Entry) {
    e.name != [] && e.name[0] == 1
  }

  predicate IsLive(e: Entry) {
    !IsEnd(e) && !IsDeleted(e)
  }

  /** What strcpy puts into the name field. */
  predicate InField(n: Name) {
    |n| < NAME_SIZE && 0 !in n
  }

  /** A name that makes a 0x00 or a 0x01 record. */
  predicate IsMarker(n: Name) {
    n == [] || n[0] == 1
  }

  function Add(a: Word, b: Word): Word {
    (a + b) % WORD
  }

  function Sub(a: Word, b: Word): Word {
    (a - b) % WORD
  }

  function EndOf(e: Entry): Word {
    Add(e.start, e.reserved)
  }

  // Allocation

  /** The gap that the scan looks at in place `t` ends here. */
  function Next(es: seq<Entry>, t: nat, blocks: nat): Word
    requires t <= |es| && 3 <= blocks < WORD
  {
    if t == |es| || IsDeleted(es[t]) then blocks - 1 else es[t].start
  }

  /** The scan of create over the sorted records: the start of the new file, or 0. */
  function Scan(es: seq<Entry>, t: nat, prev: Word, blocks: nat, want: Word): Word
    requires t <= |es| && 3 <= blocks < WORD
    decreases |es| - t
  {
    if Sub(Next(es, t, blocks), prev) >= want then prev
    else if t < |es| then Scan(es, t + 1, EndOf(es[t]), blocks, want)
    else 0
  }

  /** The extent of a record lies between the first and the last block of the disk. */
  predicate InRange(e: Entry, blocks: nat) {
    1 <= e.start && e.start + e.reserved <= blocks - 1
  }

  predicate Apart(a: Entry, b: Entry) {
    a.start + a.reserved <= b.start || b.start + b.reserved <= a.start
  }

  /** `want` blocks from `s` on lie in range and outside every live file. */
  ghost predicate FreeAt(es: seq<Entry>, s: int, blocks: nat, want: nat) {
    && 1 <= s && s + want <= blocks - 1
    && forall e :: e in es && IsLive(e) ==> s + want <= e.start || e.start + e.reserved <= s
  }

  ghost predicate Room(es: seq<Entry>, blocks: nat, want: nat) {
    exists s :: FreeAt(es, s, blocks, want)
  }

  /** A first-fit answer: the lowest free place, or 0 if there is none. */
  ghost predicate FirstFit(es: seq<Entry>, s: Word, blocks: nat, want: nat) {
    if s == 0 then !Room(es, blocks, want)
    else FreeAt(es, s, blocks, want) && forall k :: k < s ==> !FreeAt(es, k, blocks, want)
  }

  // The order

  /** A u64 that is returned as an int. */
  function ToInt(x: Word): int {
    var low := x % 0x1_0000_0000;
    if low < 0x8000_0000 then low else low - 0x1_0000_0000
  }

  function StartingBlockCmp(a: Entry, b: Entry): int {
    if IsDeleted(a) then 1
    else if IsDeleted(b) then -1
    else ToInt(Sub(a.start, b.start))
  }

  /** The comparison does not ask for `b` before `a`.  Of two deleted records it puts each
      behind the other, which leaves their order open. */
  predicate Placed(a: Entry, b: Entry) {
    !(StartingBlockCmp(a, b) > 0 && StartingBlockCmp(b, a) < 0)
  }

  /** What qsort with StartingBlockCmp leaves. */
  ghost predicate SortedByCmp(es: seq<Entry>) {
    forall i, j :: 0 <= i < j < |es| ==> Placed(es[i], es[j])
  }

  /** The live files by their starts, then the deleted records in any order. */
  ghost predicate Ordered(es: seq<Entry>) {
    && (forall i :: 0 <= i < |es| ==> !IsEnd(es[i]))
    && (forall i, j :: 0 <= i < j < |es| && IsLive(es[j]) ==> IsLive(es[i]) && es[i].start <= es[j].start)
  }

  lemma DifferenceSign(a: Word, b: Word)
    requires a < 0x8000_0000 && b < 0x8000_0000
    ensures ToInt(Sub(a, b)) == a - b
  {
    if a < b {
      DivUnique(a - b, WORD, -1, WORD + a - b);
      DivUnique(WORD + a - b, 0x1_0000_0000, 0xffff_ffff, 0x1_0000_0000 + a - b);
    }
  }

  lemma PlacedIff(a: Entry, b: Entry)
    requires a.start < 0x8000_0000 && b.start < 0x8000_0000 && !IsEnd(a) && !IsEnd(b)
    ensures Placed(a, b) <==> (IsLive(b) ==> IsLive(a) && a.start <= b.start)
  {
    DifferenceSign(a.start, b.start);
    DifferenceSign(b.start, a.start);
  }

  /** Below 2^31 the truncated difference orders the records as their starts do. */
  lemma CmpSorts(es: seq<Entry>)
    requires forall i :: 0 <= i < |es| ==> !IsEnd(es[i]) && es[i].start < 0x8000_0000
    ensures SortedByCmp(es) <==> Ordered(es)
  {
    forall i, j | 0 <= i < j < |es|
      ensures Placed(es[i], es[j]) <==> (IsLive(es[j]) ==> IsLive(es[i]) && es[i].start <= es[j].start)
    {
      PlacedIff(es[i], es[j]);
    }
  }

  // First fit

  ghost predicate AllInRange(es: seq<Entry>, blocks: nat) {
    forall e :: e in es ==> InRange(e, blocks)
  }

  ghost predicate AllApart(es: seq<Entry>) {
    forall i, j :: 0 <= i < j < |es| && IsLive(es[i]) && IsLive(es[j]) ==> Apart(es[i], es[j])
  }

  /** The end of the file before place `t`. */
  function PrevEnd(es: seq<Entry>, t: nat): int
    requires t <= |es|
  {
    if t == 0 then 1 else es[t - 1].start + es[t - 1].reserved
  }

  /** The scan goes past file `i`: the gap before it is too small. */
  predicate Passes(es: seq<Entry>, i: nat, want: Word) {
    i < |es| && IsLive(es[i]) && 0 <= es[i].start - PrevEnd(es, i) < want
  }

  predicate EmptyBehind(a: Entry, b: Entry) {
    IsLive(a) && IsLive(b) && a.start == b.start && a.reserved > 0 && b.reserved == 0
  }

  /** The scan gets to a file of no blocks that is sorted behind one of some with the same
      start, where the unsigned difference wraps around. */
  ghost predicate WrapsAt(es: seq<Entry>, w: nat, want: Word) {
    0 < w < |es| && EmptyBehind(es[w - 1], es[w]) && forall i :: 0 <= i < w ==> Passes(es, i, want)
  }

  /** `t` is the place of a live file or one past the last of them, `prev` the end of the
      file before it, and no gap below `prev` is large enough. */
  ghost predicate Reached(es: seq<Entry>, t: nat, prev: Word, blocks: nat, want: Word) {
    && Ordered(es) && AllApart(es) && AllInRange(es, blocks) && 3 <= blocks < 0x8000_0000
    && t <= |es| && prev == PrevEnd(es, t) && 1 <= prev <= blocks - 1
    && (forall i :: 0 <= i < t ==> Passes(es, i, want) && es[i].start + es[i].reserved <= prev)
    && (forall k :: k < prev ==> !FreeAt(es, k, blocks, want))
  }

  /** One turn of the scan where nothing wraps around. */
  lemma ScanTurn(es: seq<Entry>, t: nat, prev: Word, blocks: nat, want: Word)
    requires t <= |es| && 3 <= blocks < WORD && prev <= Next(es, t, blocks)
    ensures Scan(es, t, prev, blocks, want) ==
              if Next(es, t, blocks) - prev >= want then prev
              else if t < |es| then Scan(es, t + 1, EndOf(es[t]), blocks, want)
              else 0
  {
  }

  lemma LastGap(es: seq<Entry>, t: nat, prev: Word, blocks: nat, want: Word)
    requires Reached(es, t, prev, blocks, want) && (t == |es| || IsDeleted(es[t]))
    ensures Room(es, blocks, want) <==> blocks - 1 - prev >= want
    ensures Room(es, blocks, want) ==> FirstFit(es, prev, blocks, want)
  {
    assert blocks - 1 - prev >= want ==> FreeAt(es, prev, blocks, want);
    assert forall k :: FreeAt(es, k, blocks, want) ==> prev <= k;
  }

  lemma FitsBefore(es: seq<Entry>, t: nat, prev: Word, blocks: nat, want: Word)
    requires Reached(es, t, prev, blocks, want) && t < |es| && IsLive(es[t]) && es[t].start - prev >= want
    ensures FirstFit(es, prev, blocks, want) && Room(es, blocks, want)
  {
    assert es[t] in es;
    assert FreeAt(es, prev, blocks, want);
  }

  lemma TooSmall(es: seq<Entry>, t: nat, prev: Word, blocks: nat, want: Word)
    requires Reached(es, t, prev, blocks, want) && Passes(es, t, want)
    ensures EndOf(es[t]) == es[t].start + es[t].reserved
    ensures Reached(es, t + 1, EndOf(es[t]), blocks, want)
  {
    assert es[t] in es;
    forall k | k < EndOf(es[t])
      ensures !FreeAt(es, k, blocks, want)
    {
      assert k >= prev ==> k + want > es[t].start;
    }
  }

  /** Only a file of no blocks starts before the end of the file that the scan has passed. */
  lemma WrapIs(es: seq<Entry>, t: nat, prev: Word, blocks: nat, want: Word)
    requires Reached(es, t, prev, blocks, want) && t < |es| && IsLive(es[t])
    ensures es[t].start < prev <==> WrapsAt(es, t, want)
  {
    assert es[t] in es;
    if t > 0 { assert Apart(es[t - 1], es[t]); }
  }

  lemma SubWraps(a: Word, b: Word)
    requires a < b
    ensures Sub(a, b) == WORD + a - b
  {
    DivUnique(a - b, WORD, -1, WORD + a - b);
  }

  /** There the scan answers the end of the file of some blocks. */
  lemma WrapAnswer(es: seq<Entry>, t: nat, prev: Word, blocks: nat, want: Word)
    requires Reached(es, t, prev, blocks, want) && t < |es| && es[t].start < prev && IsLive(es[t]) && want <= WORD / 2
    ensures Scan(es, t, prev, blocks, want) == prev
  {
    SubWraps(es[t].start, prev);
  }

  /** The scan gets to at most one such place. */
  lemma OneWrap(es: seq<Entry>, t: nat, want: Word)
    requires t <= |es| && (forall i :: 0 <= i < t ==> Passes(es, i, want)) && !Passes(es, t, want)
    ensures forall w :: WrapsAt(es, w, want) ==> w == t
  {
    forall w | WrapsAt(es, w, want)
      ensures w == t
    {
      assert !Passes(es, w, want);
    }
  }

  /** Behind no deleted record are `want` blocks left up to the last block. */
  ghost predicate NoneTempts(es: seq<Entry>, t: nat, blocks: nat, want: Word) {
    forall i :: t <= i < |es| && IsDeleted(es[i]) ==> blocks - 1 - EndOf(es[i]) < want
  }

  /** Behind the live files the scan tries the end of every deleted one as well. */
  lemma {:induction false} ScanDeleted(es: seq<Entry>, t: nat, prev: Word, blocks: nat, want: Word)
    requires AllInRange(es, blocks) && t <= |es| && 3 <= blocks < WORD && 1 <= prev <= blocks - 1
    requires forall i :: t <= i < |es| ==> IsDeleted(es[i])
    ensures Scan(es, t, prev, blocks, want) == 0 <==>
              blocks - 1 - prev < want && NoneTempts(es, t, blocks, want)
    decreases |es| - t
  {
    if t < |es| {
      assert es[t] in es;
      ScanDeleted(es, t + 1, EndOf(es[t]), blocks, want);
    }
  }

  /** As long as no difference wraps around, the answer is first-fit exactly when there is room
      or no deleted record tempts; where one does, exactly when the end of the file before that
      place is free.  create never asks for more than WORD / 2 blocks. */
  ghost predicate ScanRight(es: seq<Entry>, s: Word, blocks: nat, want: Word) {
    && ((forall w :: !WrapsAt(es, w, want)) ==>
          (FirstFit(es, s, blocks, want) <==> Room(es, blocks, want) || NoneTempts(es, 0, blocks, want)))
    && (forall w :: WrapsAt(es, w, want) && want <= WORD / 2 ==>
          (FirstFit(es, s, blocks, want) <==> FreeAt(es, PrevEnd(es, w), blocks, want)))
  }

  lemma WrapRight(es: seq<Entry>, t: nat, prev: Word, blocks: nat, want: Word)
    requires Reached(es, t, prev, blocks, want) && t < |es| && IsLive(es[t]) && es[t].start < prev
    ensures ScanRight(es, Scan(es, t, prev, blocks, want), blocks, want)
  {
    WrapIs(es, t, prev, blocks, want);
    if want <= WORD / 2 { WrapAnswer(es, t, prev, blocks, want); }
    OneWrap(es, t, want);
  }

  /** The end of the scan of the live files. */
  lemma LastFit(es: seq<Entry>, t: nat, prev: Word, blocks: nat, want: Word)
    requires Reached(es, t, prev, blocks, want) && (t == |es| || IsDeleted(es[t]))
    ensures FirstFit(es, Scan(es, t, prev, blocks, want), blocks, want) <==>
              Room(es, blocks, want) || NoneTempts(es, 0, blocks, want)
  {
    LastGap(es, t, prev, blocks, want);
    assert NoneTempts(es, t, blocks, want) <==> NoneTempts(es, 0, blocks, want);
    if Room(es, blocks, want) {
      ScanTurn(es, t, prev, blocks, want);
    } else {
      ScanDeleted(es, t, prev, blocks, want);
      NothingFits(es, Scan(es, t, prev, blocks, want), blocks, want);
    }
  }

  lemma NothingFits(es: seq<Entry>, s: Word, blocks: nat, want: Word)
    requires !Room(es, blocks, want)
    ensures FirstFit(es, s, blocks, want) <==> s == 0
  {
  }

  lemma NoWrap(es: seq<Entry>, s: Word, t: nat, blocks: nat, want: Word)
    requires t <= |es| && (forall i :: 0 <= i < t ==> Passes(es, i, want))
    requires !Passes(es, t, want) && !WrapsAt(es, t, want)
    requires FirstFit(es, s, blocks, want) <==> Room(es, blocks, want) || NoneTempts(es, 0, blocks, want)
    ensures ScanRight(es, s, blocks, want)
  {
    OneWrap(es, t, want);
  }

  lemma {:induction false} ScanFrom(es: seq<Entry>, t: nat, prev: Word, blocks: nat, want: Word)
    requires Reached(es, t, prev, blocks, want)
    ensures ScanRight(es, Scan(es, t, prev, blocks, want), blocks, want)
    decreases |es| - t
  {
    if t == |es| || IsDeleted(es[t]) {
      LastFit(es, t, prev, blocks, want);
      NoWrap(es, Scan(es, t, prev, blocks, want), t, blocks, want);
    } else if es[t].start < prev {
      WrapRight(es, t, prev, blocks, want);
    } else if es[t].start - prev >= want {
      FitsBefore(es, t, prev, blocks, want);
      WrapIs(es, t, prev, blocks, want);
      ScanTurn(es, t, prev, blocks, want);
      NoWrap(es, prev, t, blocks, want);
    } else {
      TooSmall(es, t, prev, blocks, want);
      ScanTurn(es, t, prev, blocks, want);
      ScanFrom(es, t + 1, EndOf(es[t]), blocks, want);
    }
  }

  /** The whole scan, for any sorted files that do not overlap, files of no blocks included. */
  lemma ScanExact(es: seq<Entry>, blocks: nat, want: Word)
    requires Ordered(es) && AllApart(es) && AllInRange(es, blocks) && 3 <= blocks < 0x8000_0000
    ensures ScanRight(es, Scan(es, 0, 1, blocks, want), blocks, want)
  {
    ScanFrom(es, 0, 1, blocks, want);
  }

  /** File `a` was deleted, file `b` fills the rest of a disk of ten blocks but for one: a
      file of three blocks has no room, and create puts it over `b`. */
  lemma LuredScan(a: Entry, b: Entry)
    requires IsDeleted(a) && a.start == 1 && a.reserved == 1
    requires IsLive(b) && b.start == 2 && b.reserved == 6
    ensures Ordered([b, a]) && AllApart([b, a]) && AllInRange([b, a], 10) && !Room([b, a], 10, 3)
    ensures Scan([b, a], 0, 1, 10, 3) == 2
  {
    var es := [b, a];
    assert b in es;
    assert Scan(es, 2, 2, 10, 3) == 2;
    assert Scan(es, 1, 8, 10, 3) == 2;
  }

  /** A file `z` of no blocks that is sorted behind a file `a` of five with the same start
      makes the unsigned difference wrap: create puts a file of three blocks over `b`. */
  lemma EmptyFileScan(a: Entry, z: Entry, b: Entry)
    requires IsLive(a) && a.start == 1 && a.reserved == 5
    requires IsLive(z) && z.start == 1 && z.reserved == 0
    requires IsLive(b) && b.start == 6 && b.reserved == 2
    ensures Ordered([a, z, b]) && AllApart([a, z, b]) && AllInRange([a, z, b], 20) && WrapsAt([a, z, b], 1, 3)
    ensures Scan([a, z, b], 0, 1, 20, 3) == 6 && !FreeAt([a, z, b], 6, 20, 3)
  {
  }
}
