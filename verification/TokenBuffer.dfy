/** The producer and the consumer of producerConsumer.c, which pass tokens through one FIFO
    and items through another. */
module TokenBuffer {
  import opened Octets
  import opened Sequences
  import opened Sync
  import opened Fifo

  const PROD: Pid := 0
  const CONS: Pid := 1
  const EMPTY_SLOT: Byte := 69   // 'E'
  const INT_SIZE := 4

  /** An int as write copies it. */
  type Item = seq<Byte>

  datatype Pc =
    | Reading    // before read
    | Waiting    // blocked in read
    | Holding    // with a token, or with an item just consumed, before write

  datatype State = State(
    empty: FifoState, full: FifoState, prod: Pc, cons: Pc,
    produced: seq<Item>, consumed: seq<Item>)

  /** The set-up loop: `n` one-byte writes of the empty slot. */
  function Setup(n: nat): FifoState {
    if n == 0 then FifoState([], []) else WriteStep(Setup(n - 1), [EMPTY_SLOT]).0
  }

  function Init(n: nat): State {
    State(Setup(n), FifoState([], []), Reading, Reading, [], [])
  }

  /** What read returned to the blocked processes. */
  function Deliver(s: State, ds: seq<Delivery>): State
    decreases |ds|
  {
    if ds == [] then s
    else if ds[0].reader == PROD then Deliver(s.(prod := Holding), ds[1..])
    else Deliver(s.(cons := Holding, consumed := s.consumed + [ds[0].data]), ds[1..])
  }

  /** A blocked process cannot move, and write into a full buffer is not modelled. */
  predicate Enabled(s: State, p: Pid) {
    if p == PROD then s.prod == Reading || (s.prod == Holding && |s.full.buf| < BUF_SIZE)
    else p == CONS && (s.cons == Reading || (s.cons == Holding && |s.empty.buf| < BUF_SIZE))
  }

  /** One system call of process `p`; `item` is what the producer makes up. */
  function Step(s: State, p: Pid, item: Item): State
    requires Enabled(s, p)
  {
    if p == PROD then
      if s.prod == Reading then
        var (f, ds) := ReadStep(s.empty, Request(PROD, 1));
        Deliver(s.(empty := f, prod := Waiting), ds)
      else
        var (f, ds) := WriteStep(s.full, item);
        Deliver(s.(full := f, prod := Reading, produced := s.produced + [item]), ds)
    else
      if s.cons == Reading then
        var (f, ds) := ReadStep(s.full, Request(CONS, INT_SIZE));
        Deliver(s.(full := f, cons := Waiting), ds)
      else
        var (f, ds) := WriteStep(s.empty, [EMPTY_SLOT]);
        Deliver(s.(empty := f, cons := Reading), ds)
  }

  function Flat(items: seq<Item>): seq<Byte> {
    if items == [] then [] else Flat(items[..|items| - 1]) + items[|items| - 1]
  }

  predicate Whole(items: seq<Item>) {
    forall k :: 0 <= k < |items| ==> |items[k]| == INT_SIZE
  }

  function Held(pc: Pc): nat {
    if pc == Holding then 1 else 0
  }

  /** Tokens in the empty FIFO, items in the full one, and what the two processes hold. */
  function Tokens(s: State): nat {
    |s.empty.buf| + |s.full.buf| / INT_SIZE + Held(s.prod) + Held(s.cons)
  }

  /** A process waits exactly in its own read, and only for an empty buffer. */
  predicate ReadersOk(s: State) {
    && s.empty.readers == (if s.prod == Waiting then [Request(PROD, 1)] else [])
    && s.full.readers == (if s.cons == Waiting then [Request(CONS, INT_SIZE)] else [])
    && (s.prod == Waiting ==> s.empty.buf == [])
    && (s.cons == Waiting ==> s.full.buf == [])
  }

  predicate Inv(s: State, n: nat) {
    && ReadersOk(s) && Tokens(s) == n && |s.full.buf| % INT_SIZE == 0
    && Whole(s.produced) && Whole(s.consumed)
    && Flat(s.produced) == Flat(s.consumed) + s.full.buf
  }

  lemma {:induction false} SetupOk(n: nat)
    requires n <= BUF_SIZE
    ensures Setup(n).readers == [] && |Setup(n).buf| == n
  {
    if n > 0 {
      SetupOk(n - 1);
      ServeNone(Setup(n - 1).(buf := Setup(n - 1).buf + Accepted(Setup(n - 1).buf, [EMPTY_SLOT])));
    }
  }

  lemma InitOk(n: nat)
    requires n <= BUF_SIZE
    ensures Inv(Init(n), n)
  {
    SetupOk(n);
  }

  lemma ServeNone(f: FifoState)
    requires f.readers == []
    ensures Serve(f) == (f, [])
  {
  }

  /** Serving the one reader that may be there. */
  lemma ServeOne(f: FifoState, r: Request)
    requires f.readers == [r] && |f.buf| >= r.bytes
    ensures Serve(f) == (FifoState(f.buf[r.bytes..], []), [Delivery(r.reader, f.buf[..r.bytes])])
  {
    var n := Min(f.readers[0].bytes, |f.buf|);
    assert n == r.bytes && f.readers[1..] == [];
    var rest := FifoState(f.buf[n..], f.readers[1..]);
    ServeNone(rest);
    var d := Delivery(r.reader, f.buf[..n]);
    assert [d] + [] == [d] && rest == FifoState(f.buf[r.bytes..], []);
    assert Serve(f) == (rest, [d] + []) by {
      assert f.buf != [];
    }
  }

  lemma DeliverOne(s: State, d: Delivery)
    ensures Deliver(s, []) == s
    ensures Deliver(s, [d]) == if d.reader == PROD then s.(prod := Holding)
                               else s.(cons := Holding, consumed := s.consumed + [d.data])
  {
  }

  lemma TakeToken(s: State, n: nat)
    requires Inv(s, n) && s.prod == Reading
    ensures Inv(Step(s, PROD, []), n)
  {
    var (f, ds) := ReadStep(s.empty, Request(PROD, 1));
    DeliverOne(s.(empty := f, prod := Waiting), if ds == [] then Delivery(PROD, []) else ds[0]);
  }

  lemma PutToken(s: State, n: nat)
    requires Inv(s, n) && s.cons == Holding && |s.empty.buf| < BUF_SIZE
    ensures Inv(Step(s, CONS, []), n)
  {
    assert Accepted(s.empty.buf, [EMPTY_SLOT]) == [EMPTY_SLOT];
    var f := s.empty.(buf := s.empty.buf + [EMPTY_SLOT]);
    var t := s.(empty := Serve(f).0, cons := Reading);
    if s.prod == Waiting {
      ServeOne(f, Request(PROD, 1));
      DeliverOne(t, Serve(f).1[0]);
    } else {
      ServeNone(f);
      DeliverOne(t, Delivery(PROD, []));
    }
  }

  lemma TakeItem(s: State, n: nat)
    requires Inv(s, n) && s.cons == Reading
    ensures Inv(Step(s, CONS, []), n)
  {
    var (f, ds) := ReadStep(s.full, Request(CONS, INT_SIZE));
    DeliverOne(s.(full := f, cons := Waiting), if ds == [] then Delivery(PROD, []) else ds[0]);
    if s.full.buf != [] {
      var x := s.full.buf[..INT_SIZE];
      assert s.full.buf == x + s.full.buf[INT_SIZE..];
    }
  }

  lemma PutItem(s: State, n: nat, item: Item)
    requires Inv(s, n) && n <= BUF_SIZE / INT_SIZE && s.prod == Holding && |item| == INT_SIZE
    ensures |s.full.buf| + INT_SIZE <= BUF_SIZE && Inv(Step(s, PROD, item), n)
  {
    assert Accepted(s.full.buf, item) == item;
    if s.cons == Waiting { PutServed(s, n, item); } else { PutStored(s, n, item); }
  }

  lemma PutServed(s: State, n: nat, item: Item)
    requires Inv(s, n) && s.prod == Holding && s.cons == Waiting
    requires |item| == INT_SIZE && Accepted(s.full.buf, item) == item
    ensures Inv(Step(s, PROD, item), n)
  {
    var f := s.full.(buf := s.full.buf + item);
    assert f.buf == item;
    ServeOne(f, Request(CONS, INT_SIZE));
    DeliverOne(s.(full := Serve(f).0, prod := Reading, produced := s.produced + [item]), Serve(f).1[0]);
  }

  lemma PutStored(s: State, n: nat, item: Item)
    requires Inv(s, n) && s.prod == Holding && s.cons != Waiting
    requires |item| == INT_SIZE && Accepted(s.full.buf, item) == item
    ensures Inv(Step(s, PROD, item), n)
  {
    var f := s.full.(buf := s.full.buf + item);
    ServeNone(f);
    DeliverOne(s.(full := f, prod := Reading, produced := s.produced + [item]), Delivery(PROD, []));
  }

  lemma StepOk(s: State, n: nat, p: Pid, item: Item)
    requires Inv(s, n) && n <= BUF_SIZE / INT_SIZE && Enabled(s, p) && |item| == INT_SIZE
    ensures Inv(Step(s, p, item), n)
  {
    if p == PROD {
      if s.prod == Reading { TakeToken(s, n); } else { PutItem(s, n, item); }
    } else {
      if s.cons == Reading { TakeItem(s, n); } else { PutToken(s, n); }
    }
  }

  datatype Move = Move(p: Pid, item: Item)

  ghost predicate CanRun(s: State, moves: seq<Move>)
    decreases moves
  {
    moves != [] ==>
      |moves[0].item| == INT_SIZE && Enabled(s, moves[0].p) && CanRun(Step(s, moves[0].p, moves[0].item), moves[1..])
  }

  function Run(s: State, moves: seq<Move>): State
    requires CanRun(s, moves)
    decreases moves
  {
    if moves == [] then s else Run(Step(s, moves[0].p, moves[0].item), moves[1..])
  }

  lemma {:induction false} RunOk(s: State, n: nat, moves: seq<Move>)
    requires Inv(s, n) && n <= BUF_SIZE / INT_SIZE && CanRun(s, moves)
    ensures Inv(Run(s, moves), n)
    decreases moves
  {
    if moves != [] {
      StepOk(s, n, moves[0].p, moves[0].item);
      RunOk(Step(s, moves[0].p, moves[0].item), n, moves[1..]);
    }
  }

  /** Items of four bytes can be told apart in a byte stream. */
  lemma {:induction false} FlatLength(items: seq<Item>)
    requires Whole(items)
    ensures |Flat(items)| == INT_SIZE * |items|
  {
    if items != [] {
      FlatLength(items[..|items| - 1]);
    }
  }

  lemma {:induction false} FlatPrefix(a: seq<Item>, b: seq<Item>)
    requires Whole(a) && Whole(b) && Flat(a) <= Flat(b)
    ensures a <= b
    decreases |b|
  {
    FlatLength(a);
    FlatLength(b);
    if |a| < |b| {
      FlatLength(b[..|b| - 1]);
      assert Flat(a) <= Flat(b[..|b| - 1]);
      FlatPrefix(a, b[..|b| - 1]);
    } else if a != [] {
      var n := |a| - 1;
      FlatLength(a[..n]);
      FlatLength(b[..n]);
      assert Flat(a) == Flat(b);
      assert Flat(a)[..INT_SIZE * n] == Flat(a[..n]) && Flat(b)[..INT_SIZE * n] == Flat(b[..n]);
      assert Flat(a)[INT_SIZE * n..] == a[n] && Flat(b)[INT_SIZE * n..] == b[n];
      FlatPrefix(a[..n], b[..n]);
      assert a == a[..n] + [a[n]] && b == b[..n] + [b[n]];
    }
  }

  /** What the producer makes up in a run: the items of its writes. */
  ghost function Products(s: State, moves: seq<Move>): seq<Item>
    requires CanRun(s, moves)
    decreases moves
  {
    if moves == [] then [] else
      (if moves[0].p == PROD && s.prod == Holding then [moves[0].item] else [])
      + Products(Step(s, moves[0].p, moves[0].item), moves[1..])
  }

  lemma {:induction false} DeliverKeeps(s: State, ds: seq<Delivery>)
    ensures Deliver(s, ds).produced == s.produced
    decreases |ds|
  {
    if ds != [] {
      DeliverKeeps(if ds[0].reader == PROD then s.(prod := Holding)
                   else s.(cons := Holding, consumed := s.consumed + [ds[0].data]), ds[1..]);
    }
  }

  lemma StepProduces(s: State, p: Pid, item: Item)
    requires Enabled(s, p)
    ensures Step(s, p, item).produced == s.produced + if p == PROD && s.prod == Holding then [item] else []
  {
    if p == PROD {
      if s.prod == Reading {
        var (f, ds) := ReadStep(s.empty, Request(PROD, 1));
        DeliverKeeps(s.(empty := f, prod := Waiting), ds);
      } else {
        var (f, ds) := WriteStep(s.full, item);
        DeliverKeeps(s.(full := f, prod := Reading, produced := s.produced + [item]), ds);
      }
    } else if s.cons == Reading {
      var (f, ds) := ReadStep(s.full, Request(CONS, INT_SIZE));
      DeliverKeeps(s.(full := f, cons := Waiting), ds);
    } else {
      var (f, ds) := WriteStep(s.empty, [EMPTY_SLOT]);
      DeliverKeeps(s.(empty := f, cons := Reading), ds);
    }
  }

  lemma {:induction false} ProducedAre(s: State, moves: seq<Move>)
    requires CanRun(s, moves)
    ensures Run(s, moves).produced == s.produced + Products(s, moves)
    decreases moves
  {
    if moves != [] {
      var s' := Step(s, moves[0].p, moves[0].item);
      StepProduces(s, moves[0].p, moves[0].item);
      ProducedAre(s', moves[1..]);
      var now := if moves[0].p == PROD && s.prod == Holding then [moves[0].item] else [];
      AppendAssoc(s.produced, now, Products(s', moves[1..]));
    }
  }

  /** In every state of every run with up to 256 tokens: tokens are conserved, the next
      write fits its FIFO whole, and the consumer has received the items that the producer
      made up, whole and in order, up to those still in the FIFO. */
  lemma TokensConserved(n: nat, moves: seq<Move>)
    requires n <= BUF_SIZE / INT_SIZE && CanRun(Init(n), moves)
    ensures var s := Run(Init(n), moves);
      && Tokens(s) == n
      && (s.prod == Holding ==> |s.full.buf| + INT_SIZE <= BUF_SIZE)
      && (s.cons == Holding ==> |s.empty.buf| + 1 <= BUF_SIZE)
      && s.produced == Products(Init(n), moves) && s.consumed <= s.produced
      && INT_SIZE * (|s.produced| - |s.consumed|) == |s.full.buf|
  {
    InitOk(n);
    RunOk(Init(n), n, moves);
    ProducedAre(Init(n), moves);
    InvMeans(Run(Init(n), moves), n);
  }

  lemma InvMeans(s: State, n: nat)
    requires Inv(s, n) && n <= BUF_SIZE / INT_SIZE
    ensures s.prod == Holding ==> |s.full.buf| + INT_SIZE <= BUF_SIZE
    ensures s.cons == Holding ==> |s.empty.buf| + 1 <= BUF_SIZE
    ensures s.consumed <= s.produced && INT_SIZE * (|s.produced| - |s.consumed|) == |s.full.buf|
  {
    FlatPrefix(s.consumed, s.produced);
    FlatLength(s.produced);
    FlatLength(s.consumed);
    assert |Flat(s.produced)| == |Flat(s.consumed)| + |s.full.buf|;
  }

  /** With at least one token the two never block each other for good. */
  lemma SomebodyCanMove(s: State, n: nat)
    requires Inv(s, n) && 1 <= n <= BUF_SIZE / INT_SIZE
    ensures Enabled(s, PROD) || Enabled(s, CONS)
  {
  }

  // More than 256 tokens

  function Rounds(k: nat, item: Item): seq<Move> {
    if k == 0 then [] else [Move(PROD, item), Move(PROD, item)] + Rounds(k - 1, item)
  }

  lemma ReadToken(s: State, item: Item)
    requires ReadersOk(s) && s.prod == Reading && s.empty.buf != []
    ensures var t := Step(s, PROD, item);
      t.prod == Holding && t.empty == FifoState(s.empty.buf[1..], []) && t == s.(prod := t.prod, empty := t.empty)
  {
    var (f, ds) := ReadStep(s.empty, Request(PROD, 1));
    DeliverOne(s.(empty := f, prod := Waiting), ds[0]);
  }

  /** The producer alone: `k` times a token is taken and an item written, then one more
      token is taken. */
  lemma {:induction false} Alone(s: State, n: nat, k: nat, item: Item)
    requires Inv(s, n) && n <= BUF_SIZE && s.prod == Reading && s.cons == Reading && |item| == INT_SIZE
    requires |s.empty.buf| > k && |s.full.buf| + INT_SIZE * k <= BUF_SIZE
    ensures CanRun(s, Rounds(k, item) + [Move(PROD, item)])
    ensures var t := Run(s, Rounds(k, item) + [Move(PROD, item)]);
      t.prod == Holding && |t.full.buf| == |s.full.buf| + INT_SIZE * k
    decreases k
  {
    var last := [Move(PROD, item)];
    var moves := Rounds(k, item) + last;
    var s1 := Step(s, PROD, item);
    ReadToken(s, item);
    if k == 0 {
      assert moves == last && last[1..] == [];
      assert CanRun(s1, last[1..]) && Run(s1, last[1..]) == s1;
    } else {
      var s2 := Step(s1, PROD, item);
      Alone(s2, n, k - 1, item);
      var rest := Rounds(k - 1, item) + last;
      assert moves[1..] == [Move(PROD, item)] + rest && moves[1..][1..] == rest;
      assert CanRun(s1, moves[1..]) && Run(s1, moves[1..]) == Run(s2, rest);
    }
  }

  /** With more than 256 tokens the producer can come to write into a full buffer, unless the
      set-up already does. */
  lemma TooManyTokens(n: nat, item: Item)
    requires BUF_SIZE / INT_SIZE < n <= BUF_SIZE && |item| == INT_SIZE
    ensures exists moves :: CanRun(Init(n), moves)
              && Run(Init(n), moves).prod == Holding && |Run(Init(n), moves).full.buf| == BUF_SIZE
  {
    InitOk(n);
    Alone(Init(n), n, BUF_SIZE / INT_SIZE, item);
  }

  /** The set-up for `n` tokens does not write into a full FIFO. */
  ghost predicate SetupFits(n: nat) {
    forall k: nat :: k < n ==> |Setup(k).buf| < BUF_SIZE
  }

  /** Nor does either process, in any run. */
  ghost predicate RunsFit(n: nat) {
    forall moves :: CanRun(Init(n), moves) ==>
      var s := Run(Init(n), moves);
      (s.prod == Holding ==> |s.full.buf| < BUF_SIZE) && (s.cons == Holding ==> |s.empty.buf| < BUF_SIZE)
  }

  /** Main result: no write of the program, from the set-up on, meets a full FIFO exactly for sizes
      up to 256. */
  lemma FitsIff(n: nat)
    ensures SetupFits(n) && RunsFit(n) <==> n <= BUF_SIZE / INT_SIZE
  {
    if n <= BUF_SIZE / INT_SIZE {
      forall k: nat | k < n
        ensures |Setup(k).buf| < BUF_SIZE
      {
        SetupOk(k);
      }
      forall moves | CanRun(Init(n), moves)
        ensures var s := Run(Init(n), moves);
          (s.prod == Holding ==> |s.full.buf| < BUF_SIZE) && (s.cons == Holding ==> |s.empty.buf| < BUF_SIZE)
      {
        TokensConserved(n, moves);
      }
    } else if n <= BUF_SIZE {
      TooManyTokens(n, [0, 0, 0, 0]);
    } else {
      SetupOk(BUF_SIZE);
    }
  }
}
