/** The data page allocator (memoryAllocator.c) and the pages that a process records
    (process.c). */
module Pages {
  import opened Sequences

  const STACK_SIZE := 255
  const PAGE_SIZE := 0x1000
  const DATA_ADDRESS := 0x500000
  const MAX_DATA_PAGES := 64
  const NULL := 0

  type Page = p: int | 0 <= p < STACK_SIZE

  function Address(p: Page): nat {
    p * PAGE_SIZE + DATA_ADDRESS
  }

  /** The pages lie above the data address, and no two overlap. */
  lemma PagesApart(p: Page, q: Page)
    ensures DATA_ADDRESS <= Address(p) && Address(p) + PAGE_SIZE <= DATA_ADDRESS + STACK_SIZE * PAGE_SIZE
    ensures p < q ==> Address(p) + PAGE_SIZE <= Address(q)
  {
  }

  /** The free pages, in the order in which they will be handed out. */
  type FreeList = seq<Page>

  /** The order in which the allocator starts: page 0 comes last. */
  ghost predicate IsInitial(f: FreeList) {
    |f| == STACK_SIZE && forall i :: 0 <= i < STACK_SIZE ==> f[i] == if i < STACK_SIZE - 1 then i + 1 else 0
  }

  /** Every page is either free or held by somebody. */
  ghost predicate Partition(f: FreeList, held: set<Page>) {
    && Distinct(f)
    && forall p: Page :: p in held <==> p !in f
  }

  /** The stack of page indices: the free pages are those from `currentIndex` on. */
  class PageStack {
    const pages: array<Page>
    var currentIndex: nat
    /** The pages handed out. */
    ghost var held: set<Page>

    ghost predicate Valid()
      reads this, pages
    {
      pages.Length == STACK_SIZE && currentIndex <= STACK_SIZE && Partition(Free(), held)
    }

    ghost function Free(): FreeList
      requires currentIndex <= pages.Length
      reads this, pages
    {
      pages[currentIndex..]
    }

    /** The static array is all zeros; initialize_memory_allocator leaves out its last element. */
    constructor ()
      ensures Valid() && fresh(pages) && held == {}
      ensures IsInitial(Free())
    {
      pages := new Page[STACK_SIZE](_ => 0);
      currentIndex := 0;
      held := {};
      new;
      var i := 0;
      while i < STACK_SIZE - 1
        invariant 0 <= i <= STACK_SIZE - 1 && currentIndex == 0 && held == {}
        invariant forall k :: 0 <= k < STACK_SIZE ==> pages[k] == if k < i then k + 1 else 0
      {
        pages[i] := i + 1;
        i := i + 1;
      }
      ghost var f := Free();
      assert forall k :: 0 <= k < STACK_SIZE ==> f[k] == if k < STACK_SIZE - 1 then k + 1 else 0;
      forall p: Page
        ensures p in f
      {
        assert f[if p == 0 then STACK_SIZE - 1 else p - 1] == p;
      }
    }

    /** get_page */
    method GetPage() returns (address: nat)
      requires Valid() && currentIndex < STACK_SIZE
      modifies this
      ensures Valid()
      ensures var p := old(Free())[0];
        && address == Address(p) && p !in old(held)
        && DATA_ADDRESS <= address
        && (forall q :: q in old(held) ==> address + PAGE_SIZE <= Address(q) || Address(q) + PAGE_SIZE <= address)
        && held == old(held) + {p} && Free() == old(Free())[1..]
    {
      var p := pages[currentIndex];
      assert Free() == [p] + Free()[1..];
      forall q | q in held
        ensures Address(p) + PAGE_SIZE <= Address(q) || Address(q) + PAGE_SIZE <= Address(p)
      {
        assert p in Free();
        if p < q { PagesApart(p, q); } else { PagesApart(q, p); }
      }
      currentIndex := currentIndex + 1;
      held := held + {p};
      return Address(p);
    }

    /** store_page of a page that the caller holds. */
    method StorePage(address: nat, ghost p: Page) returns (ok: bool)
      requires Valid() && p in held && address == Address(p)
      modifies this, pages
      ensures Valid() && ok
      ensures held == old(held) - {p} && Free() == [p] + old(Free())
    {
      NotFull(Free(), p);
      if currentIndex > 0 {
        currentIndex := currentIndex - 1;
        pages[currentIndex] := (address - DATA_ADDRESS) / PAGE_SIZE;
        held := held - {p};
        assert Free() == [p] + old(Free());
        return true;
      }
      return false;
    }
  }

  lemma {:induction false} Pigeonhole(f: seq<int>, n: nat)
    requires forall i :: 0 <= i < |f| ==> 0 <= f[i] < n
    requires forall i, j :: 0 <= i < j < |f| ==> f[i] != f[j]
    ensures |f| <= n
  {
    if f == [] {
    } else if exists k :: 0 <= k < |f| && f[k] == n - 1 {
      var k :| 0 <= k < |f| && f[k] == n - 1;
      Pigeonhole(f[..k] + f[k + 1..], n - 1);
    } else {
      assert 0 <= f[0] < n;
      Pigeonhole(f, n - 1);
    }
  }

  /** If somebody holds a page then not all are free. */
  lemma NotFull(f: FreeList, p: Page)
    requires Distinct(f) && p !in f
    ensures |f| < STACK_SIZE
  {
    Pigeonhole(f + [p], STACK_SIZE);
  }

  // Page 0

  /** get_page and store_page as a caller sees them. */
  datatype Op = Get | Store(p: Page)

  predicate Possible(f: FreeList, op: Op) {
    match op
    case Get => f != []
    case Store(p) => p !in f
  }

  function Apply(f: FreeList, op: Op): FreeList
    requires Possible(f, op)
  {
    match op
    case Get => f[1..]
    case Store(p) => [p] + f
  }

  /** Page 0, which holds the parameters of the fractals, is handed out after all others. */
  predicate ZeroLast(f: FreeList) {
    forall k :: 0 <= k < |f| - 1 ==> f[k] != 0
  }

  /** Storing page 0 while other pages are free is what breaks the order, and nothing else. */
  predicate KeepsZeroLast(f: FreeList, op: Op) {
    op == Store(0) ==> f == []
  }

  lemma StepKeepsZeroLast(f: FreeList, op: Op)
    requires ZeroLast(f) && Possible(f, op)
    ensures ZeroLast(Apply(f, op)) <==> KeepsZeroLast(f, op)
  {
    var f' := Apply(f, op);
    assert op.Store? ==> f'[0] == op.p;
    assert forall k :: 0 <= k < |f'| - 1 ==>
        f'[k] == match op case Get => f[k + 1] case Store(p) => if k == 0 then p else f[k - 1];
  }

  ghost predicate Along(f: FreeList, ops: seq<Op>, good: FreeList -> bool)
    decreases ops
  {
    good(f) && (ops != [] ==> Possible(f, ops[0]) && Along(Apply(f, ops[0]), ops[1..], good))
  }

  /** In every state the next operation keeps page 0 last. */
  ghost predicate Careful(f: FreeList, ops: seq<Op>)
    decreases ops
  {
    ops != [] ==> Possible(f, ops[0]) && KeepsZeroLast(f, ops[0]) && Careful(Apply(f, ops[0]), ops[1..])
  }

  ghost predicate CanRun(f: FreeList, ops: seq<Op>)
    decreases ops
  {
    ops != [] ==> Possible(f, ops[0]) && CanRun(Apply(f, ops[0]), ops[1..])
  }

  /** Over a whole run page 0 is last in line in every state if and only if it is never
      stored while another page is free. */
  lemma {:induction false} ZeroLastIff(f: FreeList, ops: seq<Op>)
    requires ZeroLast(f) && CanRun(f, ops)
    ensures Along(f, ops, (g: FreeList) => ZeroLast(g)) <==> Careful(f, ops)
    decreases ops
  {
    if ops != [] {
      StepKeepsZeroLast(f, ops[0]);
      if KeepsZeroLast(f, ops[0]) {
        ZeroLastIff(Apply(f, ops[0]), ops[1..]);
      }
    }
  }

  /** Where page 0 is not last, handing out pages gets to it before the others are gone. */
  lemma {:induction false} ZeroTooEarly(f: FreeList)
    requires !ZeroLast(f)
    ensures exists k :: 0 <= k < |f| - 1 && f[k] == 0 && CanRun(f, Gets(k + 1)) && Final(f, Gets(k + 1)) == f[k + 1..]
  {
    var k :| 0 <= k < |f| - 1 && f[k] == 0;
    GetsRun(f, k + 1, []);
    assert Gets(k + 1) + [] == Gets(k + 1);
  }

  function Gets(n: nat): seq<Op> {
    if n == 0 then [] else [Get] + Gets(n - 1)
  }

  function Final(f: FreeList, ops: seq<Op>): FreeList
    requires CanRun(f, ops)
    decreases ops
  {
    if ops == [] then f else Final(Apply(f, ops[0]), ops[1..])
  }

  lemma FirstOp(f: FreeList, op: Op, ops: seq<Op>)
    requires Possible(f, op) && CanRun(Apply(f, op), ops)
    ensures CanRun(f, [op] + ops) && Final(f, [op] + ops) == Final(Apply(f, op), ops)
  {
    assert ([op] + ops)[1..] == ops;
  }

  lemma FirstGet(n: nat, ops: seq<Op>)
    requires n > 0
    ensures Gets(n) + ops == [Get] + (Gets(n - 1) + ops)
  {
  }

  /** Handing out `n` pages, and then `ops`. */
  lemma {:induction false} GetsRun(f: FreeList, n: nat, ops: seq<Op>)
    requires n <= |f| && CanRun(f[n..], ops)
    ensures CanRun(f, Gets(n) + ops) && Final(f, Gets(n) + ops) == Final(f[n..], ops)
    decreases n
  {
    if n == 0 {
      assert Gets(0) + ops == ops && f[0..] == f;
    } else {
      assert f[1..][n - 1..] == f[n..];
      GetsRun(f[1..], n - 1, ops);
      FirstOp(f, Get, Gets(n - 1) + ops);
      FirstGet(n, ops);
    }
  }

  /** All pages are handed out, and pages 1 and 0 are stored in this order. */
  function Exhaust(): seq<Op> {
    Gets(STACK_SIZE) + [Store(1), Store(0)]
  }

  /** From its initial order the allocator gets to hand out page 0 while page 1 is free. */
  lemma ZeroBeforeOne(f: FreeList)
    requires IsInitial(f)
    ensures ZeroLast(f) && CanRun(f, Exhaust()) && Final(f, Exhaust()) == [0, 1] && !ZeroLast([0, 1])
  {
    StoreBoth();
    assert f[STACK_SIZE..] == [];
    GetsRun(f, STACK_SIZE, [Store(1), Store(0)]);
    var g: FreeList := [0, 1];
    assert g[0] == 0;
  }

  lemma StoreBoth()
    ensures CanRun([], [Store(1), Store(0)]) && Final([], [Store(1), Store(0)]) == [0, 1]
  {
    var one: FreeList, ops: seq<Op> := [1], [Store(1), Store(0)];
    assert ops[1..] == [Store(0)] && [Store(0)][1..] == [];
    assert CanRun(one, ops[1..]) && Final(one, ops[1..]) == [0, 1];
  }

  // The pages of a process

  function One(slot: nat): seq<nat> {
    if slot == NULL then [] else [slot]
  }

  /** The recorded pages among some slots, in slot order. */
  function Recorded(slots: seq<nat>): seq<nat> {
    if slots == [] then [] else One(slots[0]) + Recorded(slots[1..])
  }

  lemma RecordedFirst(x: nat, rest: seq<nat>)
    ensures Recorded([x] + rest) == One(x) + Recorded(rest)
  {
  }

  lemma {:induction false} RecordedConcat(a: seq<nat>, b: seq<nat>)
    ensures Recorded(a + b) == Recorded(a) + Recorded(b)
  {
    if a == [] {
      assert a + b == b;
    } else {
      assert (a + b)[0] == a[0] && (a + b)[1..] == a[1..] + b;
      RecordedConcat(a[1..], b);
    }
  }

  lemma RecordedParts(a: seq<nat>, x: nat, b: seq<nat>)
    ensures Recorded(a + ([x] + b)) == Recorded(a) + (One(x) + Recorded(b))
  {
    RecordedConcat(a, [x] + b);
    RecordedFirst(x, b);
  }

  /** The first `j` recorded pages are those before slot `i`. */
  ghost predicate Passed(slots: seq<nat>, i: nat, j: nat) {
    i <= |slots| && j <= |Recorded(slots)| && Recorded(slots[i..]) == Recorded(slots)[j..]
  }

  /** One turn of the loop of free_data_pages. */
  lemma PassedNext(slots: seq<nat>, i: nat, j: nat)
    requires Passed(slots, i, j) && i < |slots|
    ensures if slots[i] == NULL then Passed(slots, i + 1, j)
            else j < |Recorded(slots)| && slots[i] == Recorded(slots)[j] && Passed(slots, i + 1, j + 1)
  {
  }

  lemma PassedEnds(slots: seq<nat>, j: nat)
    ensures Passed(slots, 0, 0)
    ensures Passed(slots, |slots|, j) ==> j == |Recorded(slots)|
  {
  }

  lemma {:induction false} RecordedAll(slots: seq<nat>)
    ensures |Recorded(slots)| <= |slots|
    ensures |Recorded(slots)| == |slots| <==> forall k :: 0 <= k < |slots| ==> slots[k] != NULL
    ensures |Recorded(slots)| == 0 <==> forall k :: 0 <= k < |slots| ==> slots[k] == NULL
    ensures forall page :: page in Recorded(slots) <==> page != NULL && page in slots
  {
    if slots != [] {
      assert slots == [slots[0]] + slots[1..];
      RecordedAll(slots[1..]);
    }
  }

  /** The first slot from `i` on that holds `x`, or the number of slots. */
  function FirstSlot(slots: seq<nat>, x: nat, i: nat): (k: nat)
    requires i <= |slots|
    ensures i <= k <= |slots| && (k < |slots| ==> slots[k] == x) && forall j :: i <= j < k ==> slots[j] != x
    decreases |slots| - i
  {
    if i == |slots| || slots[i] == x then i else FirstSlot(slots, x, i + 1)
  }

  /** The slots with `page` in place of the first `x`. */
  function Replaced(slots: seq<nat>, x: nat, page: nat): seq<nat> {
    var k := FirstSlot(slots, x, 0);
    if k < |slots| then slots[k := page] else slots
  }

  lemma {:induction false} FirstSlotIn(slots: seq<nat>, x: nat, i: nat)
    requires i <= |slots|
    ensures FirstSlot(slots, x, i) < |slots| <==> x in slots[i..]
    decreases |slots| - i
  {
    if i < |slots| {
      FirstSlotIn(slots, x, i + 1);
      assert slots[i..] == [slots[i]] + slots[i + 1..];
    }
  }

  /** Putting `page` in the place of the first `x` changes the recorded pages by just that,
      and nothing if there is no `x`. */
  /** Exactly the first slot that holds `x` is overwritten. */
  lemma ReplacedFirst(slots: seq<nat>, x: nat, page: nat)
    ensures var r := Replaced(slots, x, page);
      |r| == |slots| && forall k :: 0 <= k < |slots| ==>
        r[k] == if slots[k] == x && x !in slots[..k] then page else slots[k]
  {
    var j := FirstSlot(slots, x, 0);
    forall k | 0 <= k < |slots| && k > j
      ensures x in slots[..k]
    {
      assert slots[..k][j] == x;
    }
  }

  lemma ReplacedPages(slots: seq<nat>, x: nat, page: nat)
    ensures x !in slots ==> Replaced(slots, x, page) == slots && FirstSlot(slots, x, 0) == |slots|
    ensures x in slots ==>
              var r, r' := Recorded(slots), Recorded(Replaced(slots, x, page));
              && FirstSlot(slots, x, 0) < |slots|
              && multiset(r') + multiset(One(x)) == multiset(r) + multiset(One(page))
              && |r'| + |One(x)| == |r| + |One(page)|
  {
    FirstSlotIn(slots, x, 0);
    assert slots[0..] == slots;
    if x in slots {
      SlotExchanged(slots, FirstSlot(slots, x, 0), page);
    }
  }

  lemma SlotExchanged(slots: seq<nat>, k: nat, page: nat)
    requires k < |slots|
    ensures var r, r' := Recorded(slots), Recorded(slots[k := page]);
      && multiset(r') + multiset(One(slots[k])) == multiset(r) + multiset(One(page))
      && |r'| + |One(slots[k])| == |r| + |One(page)|
  {
    var a, x, b := slots[..k], slots[k], slots[k + 1..];
    SlotParts(slots, k, page);
    Exchange(a, x, page, b);
  }

  lemma SlotParts(slots: seq<nat>, k: nat, page: nat)
    requires k < |slots|
    ensures slots == slots[..k] + ([slots[k]] + slots[k + 1..])
    ensures slots[k := page] == slots[..k] + ([page] + slots[k + 1..])
  {
  }

  lemma Exchange(a: seq<nat>, x: nat, y: nat, b: seq<nat>)
    ensures var r, r' := Recorded(a + ([x] + b)), Recorded(a + ([y] + b));
      && multiset(r') + multiset(One(x)) == multiset(r) + multiset(One(y))
      && |r'| + |One(x)| == |r| + |One(y)|
  {
    RecordedParts(a, x, b);
    RecordedParts(a, y, b);
  }

  /** The free list after the pages `ps` have been stored one after the other. */
  function Stored(f: FreeList, ps: seq<Page>): FreeList {
    if ps == [] then f else [ps[|ps| - 1]] + Stored(f, ps[..|ps| - 1])
  }

  /** The pages stored lie on top of the others, the last one first. */
  lemma {:induction false} StoredIs(f: FreeList, ps: seq<Page>)
    ensures |Stored(f, ps)| == |ps| + |f| && Stored(f, ps)[|ps|..] == f
    ensures forall k :: 0 <= k < |ps| ==> Stored(f, ps)[|ps| - 1 - k] == ps[k]
    decreases |ps|
  {
    if ps != [] {
      var n := |ps| - 1;
      StoredIs(f, ps[..n]);
      var s, t := Stored(f, ps), Stored(f, ps[..n]);
      assert s == [ps[n]] + t;
      forall k | 0 <= k < |ps|
        ensures s[n - k] == ps[k]
      {
        if k < n { assert s[n - k] == t[n - 1 - k] == ps[..n][k]; }
      }
      assert s[|ps|..] == t[n..];
    }
  }

  lemma StoredNext(f: FreeList, ps: seq<Page>, j: nat)
    requires j < |ps|
    ensures Stored(f, ps[..j + 1]) == [ps[j]] + Stored(f, ps[..j])
    ensures forall p :: p in ps[..j + 1] <==> p == ps[j] || p in ps[..j]
  {
    assert ps[..j + 1][..j] == ps[..j] && ps[..j + 1] == ps[..j] + [ps[j]];
  }

  /** The first `j` pages of `ps` have been stored. */
  ghost predicate Freed(free: FreeList, held: set<Page>, free0: FreeList, held0: set<Page>, ps: seq<Page>, j: nat) {
    j <= |ps| && free == Stored(free0, ps[..j]) && forall p: Page :: p in held <==> p in held0 && p !in ps[..j]
  }

  lemma FreedNext(free: FreeList, held: set<Page>, free0: FreeList, held0: set<Page>, ps: seq<Page>, j: nat)
    requires Freed(free, held, free0, held0, ps, j) && j < |ps| && Distinct(ps) && ps[j] in held0
    ensures ps[j] in held && Freed([ps[j]] + free, held - {ps[j]}, free0, held0, ps, j + 1)
  {
    StoredNext(free0, ps, j);
    assert ps[j] !in ps[..j];
  }

  class Process {
    const dataPage: array<nat>
    var nDataPage: nat

    /** The counter tells how many slots are in use. */
    ghost predicate Valid()
      reads this, dataPage
    {
      dataPage.Length == MAX_DATA_PAGES && nDataPage == |Pages()|
    }

    ghost function Pages(): seq<nat>
      reads dataPage
    {
      Recorded(dataPage[..])
    }

    /** clean_data_page */
    constructor ()
      ensures Valid() && fresh(dataPage) && Pages() == []
    {
      dataPage := new nat[MAX_DATA_PAGES](_ => NULL);
      nDataPage := 0;
      new;
      RecordedAll(dataPage[..]);
    }

    /** The loop of add_data_page and remove_data_page. */
    method FindSlot(x: nat) returns (i: nat)
      requires dataPage.Length == MAX_DATA_PAGES
      ensures i == FirstSlot(dataPage[..], x, 0)
    {
      i := 0;
      while i < MAX_DATA_PAGES && dataPage[i] != x
        invariant 0 <= i <= MAX_DATA_PAGES && FirstSlot(dataPage[..], x, i) == FirstSlot(dataPage[..], x, 0)
      {
        i := i + 1;
      }
    }

    /** add_data_page: the page goes to the first free slot, or nowhere if there is none. */
    method AddDataPage(page: nat)
      requires Valid() && page != NULL
      modifies this, dataPage
      ensures Valid() && dataPage[..] == Replaced(old(dataPage[..]), NULL, page)
    {
      var i := FindSlot(NULL);
      ReplacedPages(dataPage[..], NULL, page);
      if i < MAX_DATA_PAGES {
        nDataPage := nDataPage + 1;
        dataPage[i] := page;
      }
    }

    /** remove_data_page: the first slot that holds the page is emptied, if there is one. */
    method RemoveDataPage(page: nat)
      requires Valid() && page != NULL
      modifies this, dataPage
      ensures Valid() && dataPage[..] == Replaced(old(dataPage[..]), page, NULL)
    {
      var i := FindSlot(page);
      ReplacedPages(dataPage[..], page, NULL);
      if i < MAX_DATA_PAGES {
        nDataPage := nDataPage - 1;
        dataPage[i] := NULL;
      }
    }

    /** free_data_pages: although the loop ends early, every recorded page is stored, once,
        in the order of the slots. `ps` are the recorded pages. */
    method FreeDataPages(allocator: PageStack, ghost ps: seq<Page>)
      requires Valid() && allocator.Valid()
      requires |ps| == |Pages()| && forall k :: 0 <= k < |ps| ==> Pages()[k] == Address(ps[k])
      requires Distinct(ps) && forall k :: 0 <= k < |ps| ==> ps[k] in allocator.held
      modifies this, allocator, allocator.pages
      ensures allocator.Valid() && nDataPage == 0
      ensures allocator.Free() == Stored(old(allocator.Free()), ps)
      ensures |allocator.Free()| >= |ps| && allocator.Free()[|ps|..] == old(allocator.Free())
      ensures forall k :: 0 <= k < |ps| ==> allocator.Free()[|ps| - 1 - k] == ps[k]
      ensures forall p: Page :: p in allocator.held <==> p in old(allocator.held) && p !in ps
    {
      ghost var slots := dataPage[..];
      ghost var j := 0;
      PassedEnds(slots, 0);
      var i := 0;
      while i < MAX_DATA_PAGES && nDataPage > 0
        invariant 0 <= i <= MAX_DATA_PAGES && 0 <= j <= |ps| && dataPage[..] == slots
        invariant Passed(slots, i, j) && nDataPage == |ps| - j
        invariant allocator.Valid()
        invariant Freed(allocator.Free(), allocator.held, old(allocator.Free()), old(allocator.held), ps, j)
      {
        j := FreeSlot(i, allocator, ps, j, old(allocator.Free()), old(allocator.held));
        i := i + 1;
      }
      PassedEnds(slots, j);
      assert ps[..j] == ps;
      StoredIs(old(allocator.Free()), ps);
    }

    /** The body of the loop; `next` recorded pages have been stored after it. */
    method FreeSlot(i: nat, allocator: PageStack, ghost ps: seq<Page>, ghost j: nat,
                    ghost free0: FreeList, ghost held0: set<Page>)
      returns (ghost next: nat)
      requires dataPage.Length == MAX_DATA_PAGES && i < MAX_DATA_PAGES && j <= |ps| && nDataPage == |ps| - j > 0
      requires |ps| == |Pages()| && forall k :: 0 <= k < |ps| ==> Pages()[k] == Address(ps[k])
      requires Distinct(ps) && (forall k :: 0 <= k < |ps| ==> ps[k] in held0) && Passed(dataPage[..], i, j)
      requires allocator.Valid() && Freed(allocator.Free(), allocator.held, free0, held0, ps, j)
      modifies `nDataPage, allocator, allocator.pages
      ensures allocator.Valid() && Passed(dataPage[..], i + 1, next) && next <= |ps| && nDataPage == |ps| - next
      ensures Freed(allocator.Free(), allocator.held, free0, held0, ps, next)
    {
      PassedNext(dataPage[..], i, j);
      next := j;
      if dataPage[i] != NULL {
        FreedNext(allocator.Free(), allocator.held, free0, held0, ps, j);
        FreeOne(i, allocator, ps, j);
        next := j + 1;
      }
    }

    /** The page of a slot in use is stored. */
    method FreeOne(i: nat, allocator: PageStack, ghost ps: seq<Page>, ghost j: nat)
      requires i < dataPage.Length && j < |ps| && dataPage[i] == Address(ps[j]) && nDataPage > 0
      requires allocator.Valid() && ps[j] in allocator.held
      modifies `nDataPage, allocator, allocator.pages
      ensures allocator.Valid() && nDataPage == old(nDataPage) - 1
      ensures allocator.Free() == [ps[j]] + old(allocator.Free()) && allocator.held == old(allocator.held) - {ps[j]}
    {
      var _ := allocator.StorePage(dataPage[i], ps[j]);
      nDataPage := nDataPage - 1;
    }
  }
}
