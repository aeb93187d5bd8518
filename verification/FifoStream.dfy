/** A FIFO is a byte stream (fifo.c): every run of reads and writes without a close. */
module FifoStream {
  import opened Octets
  import opened Fifo
  import opened Sequences

  datatype Event = WriteBy(data: seq<Byte>) | ReadBy(r: Request)

  /** `written` joins what the writes accepted, `asked` are the reads in order and
      `log` what was delivered, in the order of service. */
  datatype State = State(f: FifoState, written: seq<Byte>, asked: seq<Request>, log: seq<Delivery>)

  const Start := State(FifoState([], []), [], [], [])

  /** What fifo_write asks of its callers: something to write and room for some of it. */
  predicate Legal(s: State, e: Event) {
    match e
    case WriteBy(data) => data != [] && |s.f.buf| < BUF_SIZE
    case ReadBy(_) => true
  }

  function Step(s: State, e: Event): State {
    match e
    case WriteBy(data) =>
      var (f, ds) := WriteStep(s.f, data);
      s.(f := f, written := s.written + Accepted(s.f.buf, data), log := s.log + ds)
    case ReadBy(r) =>
      var (f, ds) := ReadStep(s.f, r);
      s.(f := f, asked := s.asked + [r], log := s.log + ds)
  }

  ghost predicate Run(s: State, es: seq<Event>, end: State)
    decreases es
  {
    if es == [] then end == s else Legal(s, es[0]) && Run(Step(s, es[0]), es[1..], end)
  }

  function Bytes(ds: seq<Delivery>): seq<Byte> {
    if ds == [] then [] else ds[0].data + Bytes(ds[1..])
  }

  /** The `k`-th delivery answers the `k`-th read. */
  predicate Answers(d: Delivery, r: Request) {
    d.reader == r.reader && 0 < |d.data| <= r.bytes
  }

  ghost predicate Answered(ds: seq<Delivery>, rs: seq<Request>) {
    |ds| <= |rs| && forall k :: 0 <= k < |ds| ==> Answers(ds[k], rs[k])
  }

  ghost predicate Inv(s: State) {
    && |s.f.buf| <= BUF_SIZE
    && (s.f.readers != [] ==> s.f.buf == [])
    && Bytes(s.log) + s.f.buf == s.written
    && Answered(s.log, s.asked) && s.f.readers == s.asked[|s.log|..]
  }

  lemma {:induction false} BytesAppend(a: seq<Delivery>, b: seq<Delivery>)
    ensures Bytes(a + b) == Bytes(a) + Bytes(b)
  {
    if a == [] {
      assert a + b == b;
    } else {
      assert (a + b)[0] == a[0] && (a + b)[1..] == a[1..] + b;
      BytesAppend(a[1..], b);
    }
  }

  /** Serving stops only when the bytes or the readers run out, and uses the bytes in order. */
  lemma {:induction false} ServeBytes(f: FifoState)
    ensures var (f', ds) := Serve(f);
      (f'.readers == [] || f'.buf == []) && Bytes(ds) + f'.buf == f.buf
    decreases |f.readers|
  {
    if f.readers != [] && f.buf != [] {
      var n := Min(f.readers[0].bytes, |f.buf|);
      var g := FifoState(f.buf[n..], f.readers[1..]);
      ServeBytes(g);
      var d := Delivery(f.readers[0].reader, f.buf[..n]);
      var (f', ds) := Serve(g);
      assert ([d] + ds)[1..] == ds;
      AppendAssoc(d.data, Bytes(ds), f'.buf);
      assert f.buf == d.data + f.buf[n..];
    }
  }

  /** Serving answers the readers in order. */
  lemma {:induction false} ServeOrder(f: FifoState)
    ensures var (f', ds) := Serve(f);
      Answered(ds, f.readers) && f'.readers == f.readers[|ds|..]
    decreases |f.readers|
  {
    if f.readers != [] && f.buf != [] {
      var n := Min(f.readers[0].bytes, |f.buf|);
      var g := FifoState(f.buf[n..], f.readers[1..]);
      ServeOrder(g);
      var (f', ds) := Serve(g);
      assert f.readers[1..][|ds|..] == f.readers[1 + |ds|..];
    }
  }

  /** Each delivery is as long as was asked for, unless it is the last and empties the buffer. */
  lemma {:induction false} ServeWhole(f: FifoState)
    ensures var (f', ds) := Serve(f);
      |ds| <= |f.readers| && forall k :: 0 <= k < |ds| ==> Whole(ds[k], f.readers[k], k == |ds| - 1, f'.buf)
    decreases |f.readers|
  {
    if f.readers != [] && f.buf != [] {
      var n := Min(f.readers[0].bytes, |f.buf|);
      var g := FifoState(f.buf[n..], f.readers[1..]);
      ServeWhole(g);
      var (f', ds') := Serve(g);
      var ds := Serve(f).1;
      forall k | 0 <= k < |ds|
        ensures Whole(ds[k], f.readers[k], k == |ds| - 1, f'.buf)
      {
        if k > 0 { assert ds[k] == ds'[k - 1] && f.readers[k] == g.readers[k - 1]; }
      }
    }
  }

  predicate Whole(d: Delivery, r: Request, last: bool, rest: seq<Byte>) {
    |d.data| == r.bytes || (last && rest == [])
  }

  /** The deliveries of one step are whole. */
  ghost predicate WholeStep(s: State, s': State) {
    |s.log| <= |s'.log| <= |s'.asked|
    && forall k :: |s.log| <= k < |s'.log| ==> Whole(s'.log[k], s'.asked[k], k == |s'.log| - 1, s'.f.buf)
  }

  lemma StepWhole(s: State, e: Event)
    requires Inv(s) && Legal(s, e)
    ensures WholeStep(s, Step(s, e))
  {
    var s' := Step(s, e);
    StepOk(s, e);
    match e
    case WriteBy(data) =>
      var f := s.f.(buf := s.f.buf + Accepted(s.f.buf, data));
      ServeWhole(f);
      forall k | |s.log| <= k < |s'.log|
        ensures Whole(s'.log[k], s'.asked[k], k == |s'.log| - 1, s'.f.buf)
      {
        assert s'.log[k] == Serve(f).1[k - |s.log|] && s.asked[k] == f.readers[k - |s.log|];
      }
    case ReadBy(r) => ReadTakes(s.f, r);
  }

  ghost predicate WholeRun(s: State, es: seq<Event>)
    decreases es
  {
    es != [] ==> WholeStep(s, Step(s, es[0])) && WholeRun(Step(s, es[0]), es[1..])
  }

  /** The reads of a run. */
  function Reads(es: seq<Event>): seq<Request> {
    if es == [] then [] else (if es[0].ReadBy? then [es[0].r] else []) + Reads(es[1..])
  }

  /** What the writes of a run add, each the longest prefix that fits; see AcceptedIs. */
  function Written(s: State, es: seq<Event>): seq<Byte>
    decreases es
  {
    if es == [] then [] else
      (if es[0].WriteBy? then Accepted(s.f.buf, es[0].data) else []) + Written(Step(s, es[0]), es[1..])
  }

  lemma AcceptBytes(s: State, acc: seq<Byte>)
    requires Bytes(s.log) + s.f.buf == s.written
    ensures var (f', ds) := Serve(s.f.(buf := s.f.buf + acc));
      Bytes(s.log + ds) + f'.buf == s.written + acc && |f'.buf| <= |s.f.buf + acc|
      && (f'.readers == [] || f'.buf == [])
  {
    var f := s.f.(buf := s.f.buf + acc);
    ServeBytes(f);
    var (f', ds) := Serve(f);
    BytesAppend(s.log, ds);
    AppendAssoc(Bytes(s.log), Bytes(ds), f'.buf);
    AppendAssoc(Bytes(s.log), s.f.buf, acc);
    assert |f.buf| == |Bytes(ds)| + |f'.buf|;
  }

  lemma AcceptOrder(s: State, acc: seq<Byte>)
    requires Answered(s.log, s.asked) && s.f.readers == s.asked[|s.log|..]
    ensures var (f', ds) := Serve(s.f.(buf := s.f.buf + acc));
      Answered(s.log + ds, s.asked) && f'.readers == s.asked[|s.log + ds|..]
  {
    var f := s.f.(buf := s.f.buf + acc);
    ServeOrder(f);
    var (f', ds) := Serve(f);
    assert s.asked[|s.log|..][|ds|..] == s.asked[|s.log + ds|..];
  }

  lemma WriteOk(s: State, data: seq<Byte>)
    requires Inv(s) && Legal(s, WriteBy(data))
    ensures Inv(Step(s, WriteBy(data)))
  {
    var acc := Accepted(s.f.buf, data);
    AcceptBytes(s, acc);
    AcceptOrder(s, acc);
  }

  lemma ReadOk(s: State, r: Request)
    requires Inv(s) && Legal(s, ReadBy(r))
    ensures Inv(Step(s, ReadBy(r)))
  {
    var s' := Step(s, ReadBy(r));
    if s.f.readers == [] && s.f.buf != [] {
      var n := Min(r.bytes, |s.f.buf|);
      var d := Delivery(r.reader, s.f.buf[..n]);
      BytesAppend(s.log, [d]);
      assert Bytes([d]) == s.f.buf[..n] by { assert [d][1..] == []; }
      assert s.f.buf == s.f.buf[..n] + s.f.buf[n..];
      assert Bytes(s'.log) + s'.f.buf == Bytes(s.log) + s.f.buf;
      assert |s.log| == |s.asked|;
    } else {
      assert s'.log == s.log;
      assert s'.asked[|s.log|..] == s.asked[|s.log|..] + [r];
    }
  }

  lemma StepOk(s: State, e: Event)
    requires Inv(s) && Legal(s, e)
    ensures Inv(Step(s, e))
  {
    match e
    case WriteBy(data) => WriteOk(s, data);
    case ReadBy(r) => ReadOk(s, r);
  }

  /** Main result: in every run the bytes delivered, in order of service, followed
      by the buffer are what the writes accepted; the reads are answered in the
      order in which they came, each with all it asks for or all there is; nobody
      waits while there are bytes. */
  lemma {:induction false} StreamPreserved(s: State, es: seq<Event>, end: State)
    requires Inv(s) && Run(s, es, end)
    ensures Inv(end)
    ensures Bytes(end.log) + end.f.buf == end.written == s.written + Written(s, es)
    ensures end.asked == s.asked + Reads(es)
    ensures Answered(end.log, end.asked) && WholeRun(s, es)
    ensures end.f.readers == end.asked[|end.log|..]
    ensures end.f.readers != [] ==> end.f.buf == []
    decreases es
  {
    if es != [] {
      var s' := Step(s, es[0]);
      StepOk(s, es[0]);
      StepWhole(s, es[0]);
      StreamPreserved(s', es[1..], end);
      Bookkeeping(s, es);
    }
  }

  lemma Bookkeeping(s: State, es: seq<Event>)
    requires es != []
    ensures var s' := Step(s, es[0]);
      && s'.asked + Reads(es[1..]) == s.asked + Reads(es)
      && s'.written + Written(s', es[1..]) == s.written + Written(s, es)
  {
    var s' := Step(s, es[0]);
    match es[0]
    case WriteBy(data) =>
      var acc, rest := Accepted(s.f.buf, data), Written(s', es[1..]);
      assert s'.written == s.written + acc && Written(s, es) == acc + rest;
      AppendAssoc(s.written, acc, rest);
      assert [] + Reads(es[1..]) == Reads(es[1..]);
    case ReadBy(r) =>
      var rest := Reads(es[1..]);
      assert s'.asked == s.asked + [r] && Reads(es) == [r] + rest;
      assert s.asked + [r] + rest == s.asked + ([r] + rest);
      assert [] + Written(s', es[1..]) == Written(s', es[1..]);
  }

  lemma FreshFifoIsStream(es: seq<Event>, end: State)
    requires Run(Start, es, end)
    ensures Inv(Start) && Bytes(end.log) + end.f.buf == Written(Start, es) && Answered(end.log, Reads(es))
    ensures WholeRun(Start, es)
  {
    StreamPreserved(Start, es, end);
  }
}
