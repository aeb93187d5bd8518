/** Blocking byte FIFOs (fifo.c): a circular buffer of 1024 bytes and a queue of
    readers.  The buffer refines a sequence, a FIFO refines a byte stream. */
module Fifo {
  import opened Octets
  import opened Sync
  import opened Queue
  import opened Processes

  const BUF_SIZE: nat := 1024

  /** fifo_read asks for at least one byte; see KernelFifo.Read. */
  type Amount = n: nat | n > 0 witness 1

  datatype Request = Request(reader: Pid, bytes: Amount)
  datatype Delivery = Delivery(reader: Pid, data: seq<Byte>)

  /** An open FIFO at a step boundary: the unread bytes and the blocked readers. */
  datatype FifoState = FifoState(buf: seq<Byte>, readers: seq<Request>)

  function Min(a: nat, b: nat): nat { if a < b then a else b }

  /** The part of `data` that fits. */
  function Accepted(buf: seq<Byte>, data: seq<Byte>): seq<Byte> {
    if |buf| <= BUF_SIZE then data[..Min(|data|, BUF_SIZE - |buf|)] else []
  }

  /** send_to_readers: serve blocked readers, first come first served, while there are bytes. */
  function Serve(f: FifoState): (FifoState, seq<Delivery>)
    decreases |f.readers|
  {
    if f.readers == [] || f.buf == [] then (f, []) else
    var n := Min(f.readers[0].bytes, |f.buf|);
    var (f', ds) := Serve(FifoState(f.buf[n..], f.readers[1..]));
    (f', [Delivery(f.readers[0].reader, f.buf[..n])] + ds)
  }

  /** fifo_write: the state after it and what was delivered. */
  function WriteStep(f: FifoState, data: seq<Byte>): (FifoState, seq<Delivery>) {
    Serve(f.(buf := f.buf + Accepted(f.buf, data)))
  }

  /** fifo_read up to the yield: served at once only if nobody waits and there are bytes. */
  function ReadStep(f: FifoState, r: Request): (FifoState, seq<Delivery>) {
    if f.readers == [] && f.buf != [] then
      var n := Min(r.bytes, |f.buf|);
      (f.(buf := f.buf[n..]), [Delivery(r.reader, f.buf[..n])])
    else (f.(readers := f.readers + [r]), [])
  }

  /** `data` is taken from the front of `buf`: as many bytes as asked for, or all there are. */
  ghost predicate Taken(buf: seq<Byte>, data: seq<Byte>, rest: seq<Byte>, bytes: nat) {
    buf == data + rest && |data| <= bytes && (|data| == bytes || rest == [])
  }

  lemma TakeSplit(buf: seq<Byte>, bytes: nat)
    ensures Taken(buf, buf[..Min(bytes, |buf|)], buf[Min(bytes, |buf|)..], bytes)
  {
  }

  lemma ReadTakes(f: FifoState, r: Request)
    ensures var (f', ds) := ReadStep(f, r);
      if f.readers == [] && f.buf != [] then
        f'.readers == [] && |ds| == 1 && ds[0].reader == r.reader && Taken(f.buf, ds[0].data, f'.buf, r.bytes)
      else ds == [] && f' == FifoState(f.buf, f.readers + [r])
  {
  }

  /** What is accepted is the longest prefix that fits. */
  lemma AcceptedIs(buf: seq<Byte>, data: seq<Byte>)
    requires |buf| <= BUF_SIZE
    ensures var a := Accepted(buf, data);
      && a <= data && |buf + a| <= BUF_SIZE
      && forall b :: b <= data && |buf + b| <= BUF_SIZE ==> b <= a
  {
  }

  // ----- the circular buffer -----

  class CircularBuffer {
    const buffer: array<Byte>
    var freeSlot: nat
    var current: nat
    var bufFill: nat

    ghost predicate Valid()
      reads this, buffer
    {
      buffer.Length == BUF_SIZE && current < BUF_SIZE && bufFill <= BUF_SIZE
      && freeSlot == Wrap(current + bufFill)
    }

    /** The unread bytes, oldest first. */
    ghost function Contents(): seq<Byte>
      requires Valid()
      reads this, buffer
    {
      Window(buffer[..], current, bufFill)
    }

    constructor ()
      ensures Valid() && fresh(buffer) && Contents() == []
    {
      buffer := new Byte[BUF_SIZE];
      freeSlot, current, bufFill := 0, 0, 0;
    }

    /** write_circular_buffer.  Its second branch is only right when at least one
        byte fits. */
    method Write(source: seq<Byte>) returns (writeBytes: nat)
      requires Valid() && source != [] && bufFill < BUF_SIZE
      modifies this, buffer
      ensures Valid()
      ensures writeBytes == |Accepted(old(Contents()), source)|
      ensures Contents() == old(Contents()) + Accepted(old(Contents()), source)
      ensures writeBytes <= |source| && Contents() == old(Contents()) + source[..writeBytes]
      ensures writeBytes == |source| || |Contents()| == BUF_SIZE
    {
      writeBytes := if bufFill + |source| > BUF_SIZE then BUF_SIZE - bufFill else |source|;
      var aux := freeSlot;
      WrapMod(freeSlot + writeBytes);
      freeSlot := (freeSlot + writeBytes) % BUF_SIZE;
      CopyIn(aux, source[..writeBytes]);
      bufFill := bufFill + writeBytes;
    }

    /** The copying part of write_circular_buffer. */
    method CopyIn(aux: nat, source: seq<Byte>)
      requires buffer.Length == BUF_SIZE && current < BUF_SIZE && bufFill < BUF_SIZE
      requires source != [] && bufFill + |source| <= BUF_SIZE
      requires aux == Wrap(current + bufFill) && freeSlot == Wrap(aux + |source|)
      modifies buffer
      ensures Window(buffer[..], current, bufFill + |source|) == Window(old(buffer[..]), current, bufFill) + source
    {
      ghost var was := buffer[..];
      assert aux < freeSlot <==> aux + |source| < BUF_SIZE;
      if aux < freeSlot {
        Memcpy(buffer, aux, source);
        assert buffer[..] == was[..aux] + source + was[aux + |source|..];
      } else {
        CopyAround(aux, source);
      }
      WriteWindow(was, buffer[..], current, bufFill, aux, source);
    }

    /** Its second branch: to the end of the array, then from its start. */
    method CopyAround(aux: nat, source: seq<Byte>)
      requires buffer.Length == BUF_SIZE && aux < BUF_SIZE && BUF_SIZE - aux <= |source| <= BUF_SIZE
      modifies buffer
      ensures var first := BUF_SIZE - aux;
        buffer[..] == source[first..] + old(buffer[..])[|source| - first..aux] + source[..first]
    {
      ghost var was := buffer[..];
      var firstBytes := BUF_SIZE - aux;
      Memcpy(buffer, aux, source[..firstBytes]);
      Memcpy(buffer, 0, source[firstBytes..]);
      TwoCopies(was, buffer[..], aux, source);
    }

    /** read_circular_buffer, called when there is something to read. */
    method Read(bytes: nat) returns (dest: seq<Byte>)
      requires Valid() && bytes > 0 && bufFill > 0
      modifies this
      ensures Valid()
      ensures dest == old(Contents())[..Min(bytes, |old(Contents())|)]
      ensures Contents() == old(Contents())[Min(bytes, |old(Contents())|)..]
      ensures Taken(old(Contents()), dest, Contents(), bytes)
    {
      var readBytes := if bufFill < bytes then bufFill else bytes;
      var aux := current;
      dest := CopyOut(readBytes);
      TakeWindow(buffer[..], aux, bufFill, readBytes);
      DropWindow(buffer[..], aux, bufFill, readBytes);
      TakeSplit(Window(buffer[..], aux, bufFill), bytes);
      Shrink(readBytes);
    }

    /** The bytes from `current` on, to the end of the array and then from its start. */
    method CopyOut(readBytes: nat) returns (dest: seq<Byte>)
      requires buffer.Length == BUF_SIZE && current < BUF_SIZE && 0 < readBytes <= BUF_SIZE
      modifies this`current
      ensures dest == Window(buffer[..], old(current), readBytes) && current == Wrap(old(current) + readBytes)
    {
      var aux := current;
      ReadCopies(buffer[..], aux, readBytes);
      WrapMod(current + readBytes);
      current := (current + readBytes) % BUF_SIZE;
      if aux < current {
        dest := buffer[aux..aux + readBytes];
      } else {
        var firstBytes := BUF_SIZE - aux;
        dest := buffer[aux..] + buffer[..readBytes - firstBytes];
      }
    }

    /** The counter goes down. */
    method Shrink(readBytes: nat)
      requires buffer.Length == BUF_SIZE && current < BUF_SIZE && readBytes <= bufFill <= BUF_SIZE
      requires freeSlot == Wrap(current + (bufFill - readBytes))
      modifies this`bufFill
      ensures Valid() && Contents() == Window(buffer[..], current, old(bufFill) - readBytes)
    {
      bufFill := bufFill - readBytes;
    }
  }

  /** Positions below 2 * BUF_SIZE, wrapped around. */
  function Wrap(i: nat): nat {
    if i < BUF_SIZE then i else i - BUF_SIZE
  }

  /** `n` bytes of a full array from `start` on, wrapping around. */
  function Window(a: seq<Byte>, start: nat, n: nat): (w: seq<Byte>)
    requires |a| == BUF_SIZE && start < BUF_SIZE && n <= BUF_SIZE
    ensures |w| == n && forall k :: 0 <= k < n ==> w[k] == a[Wrap(start + k)]
  {
    if start + n <= BUF_SIZE then a[start..start + n] else a[start..] + a[..start + n - BUF_SIZE]
  }

  /** What the two branches of write_circular_buffer leave in the array `b`. */
  lemma WriteWindow(a: seq<Byte>, b: seq<Byte>, start: nat, n: nat, free: nat, src: seq<Byte>)
    requires |a| == |b| == BUF_SIZE && start < BUF_SIZE && n + |src| <= BUF_SIZE && n < BUF_SIZE
    requires free == Wrap(start + n)
    requires
      if free + |src| < BUF_SIZE then b == a[..free] + src + a[free + |src|..]
      else b == src[BUF_SIZE - free..] + a[|src| - (BUF_SIZE - free)..free] + src[..BUF_SIZE - free]
    ensures Window(b, start, n + |src|) == Window(a, start, n) + src
  {
  }

  /** Two copies into the array: to its end, then from its start. */
  lemma TwoCopies(a: seq<Byte>, b: seq<Byte>, free: nat, src: seq<Byte>)
    requires |a| == BUF_SIZE && free < BUF_SIZE && BUF_SIZE - free <= |src| <= BUF_SIZE
    requires var first := BUF_SIZE - free;
      var a1 := a[..free] + src[..first] + a[free + first..];
      b == a1[..0] + src[first..] + a1[|src| - first..]
    ensures b == src[BUF_SIZE - free..] + a[|src| - (BUF_SIZE - free)..free] + src[..BUF_SIZE - free]
  {
  }

  /** The two branches of read_circular_buffer. */
  lemma ReadCopies(a: seq<Byte>, start: nat, n: nat)
    requires |a| == BUF_SIZE && start < BUF_SIZE && 0 < n <= BUF_SIZE
    ensures start < Wrap(start + n) ==> start + n <= BUF_SIZE && a[start..start + n] == Window(a, start, n)
    ensures start >= Wrap(start + n) ==>
              BUF_SIZE - start <= n && a[start..] + a[..n - (BUF_SIZE - start)] == Window(a, start, n)
  {
  }

  lemma WrapMod(i: nat)
    requires i < 2 * BUF_SIZE
    ensures i % BUF_SIZE == Wrap(i)
  {
  }

  lemma DropWindow(a: seq<Byte>, start: nat, n: nat, m: nat)
    requires |a| == BUF_SIZE && start < BUF_SIZE && m <= n <= BUF_SIZE
    ensures Window(a, start, n)[m..] == Window(a, Wrap(start + m), n - m)
  {
    var w, w' := Window(a, start, n)[m..], Window(a, Wrap(start + m), n - m);
    forall k | 0 <= k < n - m
      ensures w[k] == w'[k]
    {
      assert w'[k] == a[Wrap(Wrap(start + m) + k)];
    }
  }

  lemma TakeWindow(a: seq<Byte>, start: nat, n: nat, m: nat)
    requires |a| == BUF_SIZE && start < BUF_SIZE && m <= n <= BUF_SIZE
    ensures Window(a, start, n)[..m] == Window(a, start, m)
  {
  }

  // ----- an open FIFO -----

  function Readers(ds: seq<Delivery>): seq<Pid> {
    seq(|ds|, k requires 0 <= k < |ds| => ds[k].reader)
  }

  /** What a loop that serves readers one by one will come to. */
  ghost function Outcome(f: FifoState, st: Statuses, served: seq<Delivery>): (FifoState, seq<Delivery>, Statuses) {
    (Serve(f).0, served + Serve(f).1, UnblockAll(st, Readers(Serve(f).1)))
  }

  lemma OutcomeStep(f: FifoState, st: Statuses, served: seq<Delivery>)
    requires f.readers != [] && f.buf != []
    ensures var n := Min(f.readers[0].bytes, |f.buf|);
      var d := Delivery(f.readers[0].reader, f.buf[..n]);
      Outcome(f, st, served) == Outcome(FifoState(f.buf[n..], f.readers[1..]), Unblock(st, d.reader), served + [d])
  {
    var n := Min(f.readers[0].bytes, |f.buf|);
    var d := Delivery(f.readers[0].reader, f.buf[..n]);
    var rest := Serve(FifoState(f.buf[n..], f.readers[1..])).1;
    assert Serve(f).1 == [d] + rest;
    assert served + ([d] + rest) == (served + [d]) + rest;
    assert Readers([d] + rest)[1..] == Readers(rest);
  }

  lemma OutcomeEnds(f: FifoState, st: Statuses, served: seq<Delivery>)
    ensures f.readers == [] || f.buf == [] ==> Outcome(f, st, served) == (f, served, st)
    ensures Outcome(f, st, []) == (Serve(f).0, Serve(f).1, UnblockAll(st, Readers(Serve(f).1)))
  {
    assert served + [] == served && [] + Serve(f).1 == Serve(f).1;
  }

  class KernelFifo {
    const cBuffer: CircularBuffer
    const readQueue: LinkedQueue<Request>

    ghost function Repr(): set<object>
      reads this, readQueue
    {
      {this, cBuffer, cBuffer.buffer} + readQueue.Repr()
    }

    ghost predicate Valid()
      reads this, cBuffer, cBuffer.buffer, readQueue, readQueue.Repr()
    {
      && this !in readQueue.Repr() && cBuffer !in readQueue.Repr() && cBuffer.buffer !in readQueue.Repr()
      && cBuffer.Valid() && readQueue.Valid()
    }

    ghost function Value(): FifoState
      requires Valid()
      reads this, cBuffer, cBuffer.buffer, readQueue, readQueue.Repr()
    {
      FifoState(cBuffer.Contents(), readQueue.Contents())
    }

    constructor ()
      ensures Valid() && fresh(Repr()) && Value() == FifoState([], [])
    {
      cBuffer := new CircularBuffer();
      readQueue := new LinkedQueue<Request>();
    }

    /** try_read(peek(read_queue)), when there are bytes. */
    method TryFirst() returns (data: seq<Byte>)
      requires Valid() && Value().readers != [] && Value().buf != []
      modifies cBuffer
      ensures Valid()
      ensures var f := old(Value()); var n := Min(f.readers[0].bytes, |f.buf|);
        data == f.buf[..n] && Value() == FifoState(f.buf[n..], f.readers)
    {
      var r := readQueue.Peek();
      data := cBuffer.Read(r.value.bytes);
    }

    /** One turn of the loop of send_to_readers: try_read, dequeue, unblock. */
    method ServeFirst(procs: ProcessTable, ghost served: seq<Delivery>)
      returns (d: Delivery, none: bool)
      requires Valid() && procs !in Repr() && Value().readers != [] && Value().buf != []
      modifies cBuffer, readQueue.Repr(), procs
      ensures Valid() && readQueue.Repr() <= old(readQueue.Repr())
      ensures |Value().readers| < |old(Value()).readers| && (none <==> Value().readers == [])
      ensures Outcome(Value(), procs.st, served + [d]) == old(Outcome(Value(), procs.st, served))
    {
      OutcomeStep(Value(), procs.st, served);
      var data := TryFirst();
      var r := readQueue.Dequeue();
      procs.UnblockProcess(r.value.reader);
      d := Delivery(r.value.reader, data);
      none := readQueue.IsEmpty();
    }

    /** send_to_readers */
    method SendToReaders(procs: ProcessTable) returns (served: seq<Delivery>)
      requires Valid() && procs !in Repr()
      modifies cBuffer, readQueue.Repr(), procs
      ensures Valid() && readQueue.Repr() <= old(readQueue.Repr())
      ensures (Value(), served) == Serve(old(Value()))
      ensures procs.st == UnblockAll(old(procs.st), Readers(served))
    {
      served := [];
      ghost var start := Value();
      var none := readQueue.IsEmpty();
      while !none && cBuffer.bufFill > 0
        invariant Valid() && readQueue.Repr() <= old(readQueue.Repr())
        invariant none <==> Value().readers == []
        invariant Outcome(Value(), procs.st, served) == old(Outcome(Value(), procs.st, []))
        decreases |Value().readers|
      {
        var d: Delivery;
        d, none := ServeFirst(procs, served);
        served := served + [d];
      }
      OutcomeEnds(Value(), procs.st, served);
      OutcomeEnds(start, old(procs.st), []);
    }

    /** fifo_write on an open FIFO. */
    method Write(data: seq<Byte>, procs: ProcessTable) returns (writeBytes: nat, served: seq<Delivery>)
      requires Valid() && procs !in Repr()
      requires data != [] ==> |Value().buf| < BUF_SIZE
      modifies Repr(), procs
      ensures Valid() && Repr() <= old(Repr())
      ensures writeBytes == |Accepted(old(Value()).buf, data)|
      ensures data != [] ==> (Value(), served) == WriteStep(old(Value()), data)
      ensures data == [] ==> Value() == old(Value()) && served == []
      ensures procs.st == UnblockAll(old(procs.st), Readers(served))
      ensures Woke(old(procs.st), procs.st, Readers(served))
    {
      UnblockAllWakes(procs.st, []);
      if |data| == 0 { return 0, []; }
      writeBytes := cBuffer.Write(data);
      served := SendToReaders(procs);
      UnblockAllWakes(old(procs.st), Readers(served));
    }

    /** A reader goes to the end of the queue and blocks. */
    method Wait(r: Request, procs: ProcessTable)
      requires Valid() && procs !in Repr()
      modifies readQueue.Repr(), procs
      ensures Valid() && fresh(Repr() - old(Repr()))
      ensures Value() == old(Value()).(readers := old(Value()).readers + [r])
      ensures procs.st == Block(old(procs.st), r.reader)
    {
      readQueue.Enqueue(r);
      procs.BlockProcess(r.reader);
    }

    /** fifo_read on an open FIFO, up to the yield of a reader that has to wait. */
    method Read(reader: Pid, bytes: int, procs: ProcessTable) returns (served: seq<Delivery>)
      requires Valid() && procs !in Repr()
      modifies Repr(), procs
      ensures Valid() && fresh(Repr() - old(Repr()))
      ensures bytes > 0 ==> (Value(), served) == ReadStep(old(Value()), Request(reader, bytes))
      ensures bytes <= 0 ==> Value() == old(Value()) && served == []
      ensures served != [] ==>
                && |served| == 1 && served[0].reader == reader
                && Taken(old(Value()).buf, served[0].data, Value().buf, bytes)
      ensures procs.st == if bytes > 0 && served == [] then Block(old(procs.st), reader) else old(procs.st)
    {
      if bytes <= 0 { return []; }
      ReadTakes(Value(), Request(reader, bytes));
      var first := readQueue.IsEmpty();
      if first && cBuffer.bufFill > 0 {
        var data := cBuffer.Read(bytes);
        return [Delivery(reader, data)];
      }
      Wait(Request(reader, bytes), procs);
      served := [];
    }
  }
}
