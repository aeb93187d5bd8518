/** Who is blocked and where (kernelMutex.c, condVariable.c, fifo.c, timer.c, process.c):
    every step of the kernel keeps the process states and all the wait queues in
    agreement.  The steps are the functions of Sync, Fifo and Timer. */
module KernelWaits {
  import opened Octets
  import opened Sync
  import opened Processes
  import opened Fifo
  import opened Sequences
  import opened Timer
  import FifoStream
  import MutexToken
  import SleepDeadlines

  /** `st` is what the pages of the processes say, `table` are the processes that there still
      are: a queue can hold one that was destroyed, whose page keeps its DELETE mark. `relock`
      are the processes that were woken from cond_wait, or still sleep there, with the mutex
      that they lock before they return. */
  datatype Kernel = Kernel(st: Statuses, table: set<Pid>, mutexes: map<nat, Mutex>, conds: map<nat, seq<Pid>>,
                           fifos: map<nat, FifoState>, sleepers: seq<Sleeper>, relock: map<Pid, nat>)

  datatype Chan = OfMutex(key: nat) | OfCond(key: nat) | OfFifo(key: nat) | OfTimer

  datatype Event =
    | MutexLock(p: Pid, key: nat) | MutexUnlock(p: Pid, key: nat)
    | CondWait(p: Pid, cond: nat, key: nat) | Relock(p: Pid)
    | CondSignal(p: Pid, cond: nat) | CondBroadcast(p: Pid, cond: nat)
    | FifoRead(p: Pid, fifo: nat, bytes: Amount) | FifoWrite(p: Pid, fifo: nat, data: seq<Byte>)
    | Sleep(p: Pid, milliseconds: nat) | TimerTick | Kill(p: Pid, target: Pid)
    | Exec(p: Pid, child: Pid) | End(p: Pid)
    | WaitForKey(p: Pid) | WaitForForeground(p: Pid) | KeyFor(target: Pid) | Foreground(target: Pid)

  function ReadersOf(rs: seq<Request>): seq<Pid> {
    seq(|rs|, k requires 0 <= k < |rs| => rs[k].reader)
  }

  function SleepersOf(l: seq<Sleeper>): seq<Pid> {
    seq(|l|, k requires 0 <= k < |l| => l[k].p)
  }

  function Waiting(s: Kernel, c: Chan): seq<Pid> {
    match c
    case OfMutex(k) => if k in s.mutexes then s.mutexes[k].queue else []
    case OfCond(k) => if k in s.conds then s.conds[k] else []
    case OfFifo(k) => if k in s.fifos then ReadersOf(s.fifos[k].readers) else []
    case OfTimer => SleepersOf(s.sleepers)
  }

  /** `p` runs: it is known, not blocked and in no queue.  A process that is marked
      DELETE goes on until the next switch. */
  ghost predicate Runs(s: Kernel, p: Pid) {
    p in s.table && p in s.st && (s.st[p] == Ready || s.st[p] == Delete) && forall c :: p !in Waiting(s, c)
  }

  /** A step starts with a process that runs, or with an interrupt; after cond_wait the
      first step of a process is the relock.  A process ends itself, or the scheduler comes
      to one that is marked DELETE, queued or not, and destroys it. */
  ghost predicate Legal(s: Kernel, e: Event) {
    match e
    case TimerTick => true
    case KeyFor(_) => true
    case Foreground(_) => true
    case End(p) => p in s.table && p in s.st && (s.st[p] == Delete || (Runs(s, p) && p !in s.relock))
    case Exec(p, child) => Runs(s, p) && p !in s.relock && child !in s.st
    case Relock(p) => Runs(s, p) && p in s.relock
    case FifoWrite(p, f, data) =>
      Runs(s, p) && p !in s.relock && (f in s.fifos ==> data != [] && |s.fifos[f].buf| < BUF_SIZE)
    case _ => Runs(s, e.p) && e.p !in s.relock
  }

  function LockStep(s: Kernel, p: Pid, key: nat): Kernel {
    if key !in s.mutexes then s else
    var (m, ok) := Lock(s.mutexes[key], p);
    s.(mutexes := s.mutexes[key := m], st := if ok then s.st else Block(s.st, p))
  }

  function UnlockStep(s: Kernel, key: nat): Kernel {
    if key !in s.mutexes then s else
    var (m, w) := Unlock(s.mutexes[key], Dead(s.st));
    s.(mutexes := s.mutexes[key := m], st := UnblockOption(s.st, w))
  }

  function WaitStep(s: Kernel, p: Pid, cond: nat, key: nat): Kernel {
    if cond !in s.conds then s else
    var s1 := UnlockStep(s, key);
    s1.(conds := s1.conds[cond := s1.conds[cond] + [p]], st := Block(s1.st, p), relock := s1.relock[p := key])
  }

  function SignalStep(s: Kernel, cond: nat): Kernel {
    if cond !in s.conds then s else
    var (q, w) := Signal(s.conds[cond]);
    s.(conds := s.conds[cond := q], st := UnblockOption(s.st, w))
  }

  function BroadcastStep(s: Kernel, cond: nat): Kernel {
    if cond !in s.conds then s else s.(conds := s.conds[cond := []], st := UnblockAll(s.st, s.conds[cond]))
  }

  function FifoReadStep(s: Kernel, p: Pid, fifo: nat, bytes: Amount): Kernel {
    if fifo !in s.fifos then s else
    var (f, ds) := ReadStep(s.fifos[fifo], Request(p, bytes));
    s.(fifos := s.fifos[fifo := f], st := if ds == [] then Block(s.st, p) else s.st)
  }

  function FifoWriteStep(s: Kernel, fifo: nat, data: seq<Byte>): Kernel {
    if fifo !in s.fifos then s else
    var (f, ds) := WriteStep(s.fifos[fifo], data);
    s.(fifos := s.fifos[fifo := f], st := UnblockAll(s.st, Readers(ds)))
  }

  function SleepStep(s: Kernel, p: Pid, milliseconds: nat): Kernel {
    if WaitTicks(milliseconds) == 0 then s
    else s.(sleepers := [Sleeper(p, WaitTicks(milliseconds))] + s.sleepers, st := Block(s.st, p))
  }

  function TickStep(s: Kernel): Kernel {
    s.(sleepers := Remaining(s.sleepers), st := UnblockAll(s.st, Due(s.sleepers)))
  }

  /** unblock_read_process, unblock_foreground_process */
  function WakeFrom(s: Kernel, p: Pid, from: Status): Kernel {
    if p in s.st && s.st[p] == from then s.(st := s.st[p := Ready]) else s
  }

  /** destroy_process */
  function EndStep(s: Kernel, p: Pid): Kernel {
    var st := if p in s.st && s.st[p] == Delete then s.st else s.st - {p};
    s.(st := st, table := s.table - {p}, relock := s.relock - {p})
  }

  function Step(s: Kernel, e: Event): Kernel {
    match e
    case MutexLock(p, key) => LockStep(s, p, key)
    case MutexUnlock(_, key) => UnlockStep(s, key)
    case CondWait(p, cond, key) => WaitStep(s, p, cond, key)
    case Relock(p) => if p in s.relock then LockStep(s.(relock := s.relock - {p}), p, s.relock[p]) else s
    case CondSignal(_, cond) => SignalStep(s, cond)
    case CondBroadcast(_, cond) => BroadcastStep(s, cond)
    case FifoRead(p, fifo, bytes) => FifoReadStep(s, p, fifo, bytes)
    case FifoWrite(_, fifo, data) => FifoWriteStep(s, fifo, data)
    case Sleep(p, milliseconds) => SleepStep(s, p, milliseconds)
    case TimerTick => TickStep(s)
    case Kill(_, t) => if t in s.table && t in s.st && t > 1 then s.(st := s.st[t := Delete]) else s
    case Exec(_, child) => s.(st := s.st[child := Ready], table := s.table + {child})
    case End(p) => EndStep(s, p)
    case WaitForKey(p) => s.(st := s.st[p := BlockedRead])
    case WaitForForeground(p) => s.(st := s.st[p := BlockedForeground])
    case KeyFor(t) => WakeFrom(s, t, BlockedRead)
    case Foreground(t) => WakeFrom(s, t, BlockedForeground)
  }

  // ----- the invariant -----

  /** The process states agree with the queues `w`. */
  ghost predicate Agree(st: Statuses, w: Chan -> seq<Pid>) {
    && (forall c :: Distinct(w(c)))
    && (forall c, d, p :: p in w(c) && p in w(d) ==> c == d)
    && (forall c, p :: p in w(c) ==> p in st && (st[p] == Blocked || st[p] == Delete))
    && (forall p :: p in st && st[p] == Blocked ==> exists c :: p in w(c))
  }

  function Queues(s: Kernel): Chan -> seq<Pid> {
    c => Waiting(s, c)
  }

  ghost predicate Inv(s: Kernel) {
    Agree(s.st, Queues(s))
  }

  /** What a waiter waits for has not happened yet. */
  ghost predicate Pending(s: Kernel) {
    && (forall k :: k in s.mutexes && s.mutexes[k].unlocked ==> s.mutexes[k].queue == [])
    && (forall k :: k in s.fifos && s.fifos[k].readers != [] ==> s.fifos[k].buf == [])
    && Positive(s.sleepers)
  }

  lemma Joined(q: seq<Pid>, q': seq<Pid>, p: Pid)
    requires Distinct(q) && p !in q && (q' == q + [p] || q' == [p] + q)
    ensures Distinct(q') && forall r :: r in q' <==> r in q || r == p
  {
  }

  /** `p` joins one queue and is blocked. */
  lemma Park(st: Statuses, w: Chan -> seq<Pid>, w': Chan -> seq<Pid>, c: Chan, p: Pid)
    requires Agree(st, w) && p in st && forall d :: p !in w(d)
    requires w'(c) == w(c) + [p] || w'(c) == [p] + w(c)
    requires forall d :: d != c ==> w'(d) == w(d)
    ensures Agree(Block(st, p), w')
  {
    assert p !in w(c) && Distinct(w(c));
    Joined(w(c), w'(c), p);
    forall q | q in st && Block(st, p)[q] == Blocked
      ensures exists d :: q in w'(d)
    {
      if q == p {
        assert p in w'(c);
      } else {
        var d :| q in w(d);
        assert q in w'(d);
      }
    }
  }

  /** Some processes leave one queue and are no longer blocked. */
  lemma Release(st: Statuses, st': Statuses, w: Chan -> seq<Pid>, w': Chan -> seq<Pid>, c: Chan)
    requires Agree(st, w) && Distinct(w'(c)) && st'.Keys == st.Keys
    requires forall d :: d != c ==> w'(d) == w(d)
    requires forall q :: q in w'(c) ==> q in w(c)
    requires forall q :: q in st ==> if q in w(c) && q !in w'(c) then st'[q] != Blocked else st'[q] == st[q]
    ensures Agree(st', w')
  {
    forall q | q in st' && st'[q] == Blocked
      ensures exists d :: q in w'(d)
    {
      assert st[q] == Blocked;
      var d :| q in w(d);
      assert q in w'(d);
    }
  }

  lemma Unmoved(s: Kernel, s': Kernel)
    requires Inv(s) && s'.st == s.st && forall c :: Waiting(s', c) == Waiting(s, c)
    ensures Inv(s')
  {
    assert forall c :: Queues(s')(c) == Queues(s)(c);
  }

  lemma LockOk(s: Kernel, p: Pid, key: nat)
    requires Inv(s) && Runs(s, p)
    ensures Inv(LockStep(s, p, key)) && (Pending(s) ==> Pending(LockStep(s, p, key)))
  {
    var s' := LockStep(s, p, key);
    if key in s.mutexes {
      if s.mutexes[key].unlocked {
        Unmoved(s, s');
      } else {
        assert forall d :: p !in Queues(s)(d);
        Park(s.st, Queues(s), Queues(s'), OfMutex(key), p);
      }
    }
  }

  lemma Split(q: seq<Pid>, n: nat)
    requires Distinct(q) && n <= |q|
    ensures Distinct(q[n..])
    ensures forall p :: p in q <==> p in q[..n] || p in q[n..]
    ensures forall p :: !(p in q[..n] && p in q[n..])
  {
    assert q == q[..n] + q[n..];
  }

  lemma UnlockQueue(m: Mutex, dead: set<Pid>)
    requires Distinct(m.queue)
    ensures var (m', w) := Unlock(m, dead);
      && Distinct(m'.queue)
      && (forall p :: p in m'.queue ==> p in m.queue)
      && (forall p :: p in m.queue && p !in m'.queue ==> p in dead || w == Some(p))
      && (w.Some? ==> w.value in m.queue && w.value !in m'.queue)
      && (m'.unlocked ==> m'.queue == [])
  {
    MutexToken.UnlockHandsOver(m, dead);
    var (m', w) := Unlock(m, dead);
    if w.Some? {
      var k: nat :| MutexToken.ServedAt(m.queue, k, w.value, m'.queue, dead);
      Split(m.queue, k + 1);
      assert m.queue[k] in m.queue[..k + 1];
    }
  }

  lemma UnlockAgrees(s: Kernel, key: nat)
    requires Inv(s)
    ensures Inv(UnlockStep(s, key)) && (Pending(s) ==> Pending(UnlockStep(s, key)))
    ensures forall c, p :: p in Waiting(UnlockStep(s, key), c) ==> p in Waiting(s, c)
  {
    var s' := UnlockStep(s, key);
    if key in s.mutexes {
      assert Distinct(Queues(s)(OfMutex(key)));
      UnlockQueue(s.mutexes[key], Dead(s.st));
      Release(s.st, s'.st, Queues(s), Queues(s'), OfMutex(key));
    }
  }

  lemma UnlockOk(s: Kernel, key: nat)
    requires Inv(s)
    ensures Inv(UnlockStep(s, key)) && (Pending(s) ==> Pending(UnlockStep(s, key)))
    ensures forall p :: p in s.st && Runs(s, p) ==> Runs(UnlockStep(s, key), p)
  {
    UnlockAgrees(s, key);
  }

  lemma WaitOk(s: Kernel, p: Pid, cond: nat, key: nat)
    requires Inv(s) && Runs(s, p)
    ensures Inv(WaitStep(s, p, cond, key)) && (Pending(s) ==> Pending(WaitStep(s, p, cond, key)))
  {
    if cond in s.conds {
      var s1, s' := UnlockStep(s, key), WaitStep(s, p, cond, key);
      UnlockOk(s, key);
      assert Runs(s1, p);
      assert forall d :: p !in Queues(s1)(d);
      Park(s1.st, Queues(s1), Queues(s'), OfCond(cond), p);
    }
  }

  lemma SignalOk(s: Kernel, cond: nat)
    requires Inv(s)
    ensures Inv(SignalStep(s, cond)) && (Pending(s) ==> Pending(SignalStep(s, cond)))
  {
    var s' := SignalStep(s, cond);
    if cond in s.conds {
      var q := s.conds[cond];
      assert Distinct(Queues(s)(OfCond(cond)));
      if q != [] {
        assert q[0] in Queues(s)(OfCond(cond));
        assert forall p :: p in q <==> p == q[0] || p in q[1..];
      }
      Release(s.st, s'.st, Queues(s), Queues(s'), OfCond(cond));
    }
  }

  lemma BroadcastOk(s: Kernel, cond: nat)
    requires Inv(s)
    ensures Inv(BroadcastStep(s, cond)) && (Pending(s) ==> Pending(BroadcastStep(s, cond)))
  {
    var s' := BroadcastStep(s, cond);
    if cond in s.conds {
      UnblockAllWakes(s.st, s.conds[cond]);
      assert Queues(s)(OfCond(cond)) == s.conds[cond];
      Release(s.st, s'.st, Queues(s), Queues(s'), OfCond(cond));
    }
  }

  lemma ReadOk(s: Kernel, p: Pid, fifo: nat, bytes: Amount)
    requires Inv(s) && Runs(s, p)
    ensures Inv(FifoReadStep(s, p, fifo, bytes)) && (Pending(s) ==> Pending(FifoReadStep(s, p, fifo, bytes)))
  {
    var s' := FifoReadStep(s, p, fifo, bytes);
    if fifo in s.fifos {
      var (f, ds) := ReadStep(s.fifos[fifo], Request(p, bytes));
      if ds == [] {
        assert ReadersOf(f.readers) == ReadersOf(s.fifos[fifo].readers) + [p];
        assert forall d :: p !in Queues(s)(d);
        Park(s.st, Queues(s), Queues(s'), OfFifo(fifo), p);
      } else {
        Unmoved(s, s');
      }
    }
  }

  /** Serving readers takes them from the front of the queue. */
  lemma ServeQueue(f: FifoState)
    requires Distinct(ReadersOf(f.readers))
    ensures var (f', ds) := Serve(f);
      var q, q' := ReadersOf(f.readers), ReadersOf(f'.readers);
      && Distinct(q') && (f'.readers == [] || f'.buf == [])
      && (forall p :: p in q <==> p in Readers(ds) || p in q')
      && (forall p :: !(p in Readers(ds) && p in q'))
  {
    FifoStream.ServeOrder(f);
    FifoStream.ServeBytes(f);
    var (f', ds) := Serve(f);
    var q := ReadersOf(f.readers);
    assert Readers(ds) == q[..|ds|] by {
      forall k | 0 <= k < |ds| ensures ds[k].reader == f.readers[k].reader {
        assert FifoStream.Answers(ds[k], f.readers[k]);
      }
    }
    assert ReadersOf(f'.readers) == q[|ds|..];
    Split(q, |ds|);
  }

  lemma WriteOk(s: Kernel, fifo: nat, data: seq<Byte>)
    requires Inv(s)
    ensures Inv(FifoWriteStep(s, fifo, data)) && (Pending(s) ==> Pending(FifoWriteStep(s, fifo, data)))
  {
    var s' := FifoWriteStep(s, fifo, data);
    if fifo in s.fifos {
      var f0 := s.fifos[fifo];
      var f1 := f0.(buf := f0.buf + Accepted(f0.buf, data));
      assert Distinct(Queues(s)(OfFifo(fifo)));
      ServeQueue(f1);
      UnblockAllWakes(s.st, Readers(Serve(f1).1));
      Release(s.st, s'.st, Queues(s), Queues(s'), OfFifo(fifo));
    }
  }

  lemma SleepOk(s: Kernel, p: Pid, milliseconds: nat)
    requires Inv(s) && Runs(s, p)
    ensures Inv(SleepStep(s, p, milliseconds)) && (Pending(s) ==> Pending(SleepStep(s, p, milliseconds)))
  {
    var s' := SleepStep(s, p, milliseconds);
    if WaitTicks(milliseconds) > 0 {
      assert SleepersOf(s'.sleepers) == [p] + SleepersOf(s.sleepers);
      assert forall d :: p !in Queues(s)(d);
      Park(s.st, Queues(s), Queues(s'), OfTimer, p);
    }
  }

  lemma SleepersCons(x: Sleeper, l: seq<Sleeper>)
    ensures SleepersOf([x] + l) == [x.p] + SleepersOf(l)
  {
  }

  lemma {:induction false} TickQueue(l: seq<Sleeper>)
    requires Distinct(SleepersOf(l))
    ensures Distinct(SleepersOf(Remaining(l)))
    ensures forall p :: p in SleepersOf(l) <==> p in SleepersOf(Remaining(l)) || p in Due(l)
    ensures forall p :: !(p in SleepersOf(Remaining(l)) && p in Due(l))
  {
    if l != [] {
      var x, rest := l[0], l[1..];
      assert l == [x] + rest;
      SleepersCons(x, rest);
      var q, r := SleepersOf(rest), SleepersOf(Remaining(rest));
      DistinctCons(x.p, q);
      TickQueue(rest);
      if x.ticks <= 1 {
        assert Remaining(l) == Remaining(rest) && Due(l) == [x.p] + Due(rest);
      } else {
        SleepersCons(x.(ticks := x.ticks - 1), Remaining(rest));
        assert SleepersOf(Remaining(l)) == [x.p] + r && Due(l) == Due(rest);
        DistinctCons(x.p, r);
      }
    }
  }

  lemma TickPending(s: Kernel)
    requires Pending(s)
    ensures Pending(TickStep(s))
  {
    SleepDeadlines.TickRefinesClock(s.sleepers, 0);
  }

  lemma TickOk(s: Kernel)
    requires Inv(s)
    ensures Inv(TickStep(s)) && (Pending(s) ==> Pending(TickStep(s)))
  {
    var s' := TickStep(s);
    if Pending(s) { TickPending(s); }
    assert Distinct(Queues(s)(OfTimer));
    TickQueue(s.sleepers);
    UnblockAllWakes(s.st, Due(s.sleepers));
    assert SleepersOf(s'.sleepers) == Queues(s')(OfTimer);
    Release(s.st, s'.st, Queues(s), Queues(s'), OfTimer);
  }

  lemma KillOk(s: Kernel, target: Pid)
    requires Inv(s) && target in s.st
    ensures Inv(s.(st := s.st[target := Delete]))
  {
    var s' := s.(st := s.st[target := Delete]);
    assert forall c :: Queues(s')(c) == Queues(s)(c);
  }

  lemma StillQueued(s: Kernel, s': Kernel, q: Pid)
    requires Inv(s) && (forall c :: Waiting(s', c) == Waiting(s, c)) && q in s.st && s.st[q] == Blocked
    ensures exists c :: q in Queues(s')(c)
  {
    var c :| q in Queues(s)(c);
    assert q in Queues(s')(c);
  }

  /** A process that is in no queue is created, or changes its state. */
  lemma SetOk(s: Kernel, p: Pid, v: Status)
    requires Inv(s) && (forall c :: p !in Waiting(s, c)) && v != Blocked
    ensures Inv(s.(st := s.st[p := v]))
  {
    var s' := s.(st := s.st[p := v]);
    assert forall c :: Queues(s')(c) == Waiting(s, c) == Queues(s)(c);
    forall q | q in s'.st && s'.st[q] == Blocked
      ensures exists c :: q in Queues(s')(c)
    {
      StillQueued(s, s', q);
    }
  }

  /** A process ends, or is destroyed while a queue still holds it. */
  lemma EndOk(s: Kernel, p: Pid)
    requires Inv(s) && p in s.st && (s.st[p] == Delete || forall c :: p !in Waiting(s, c))
    ensures Inv(EndStep(s, p))
  {
    var s' := EndStep(s, p);
    assert forall c :: Queues(s')(c) == Waiting(s, c) == Queues(s)(c);
    forall q | q in s'.st && s'.st[q] == Blocked
      ensures exists c :: q in Queues(s')(c)
    {
      StillQueued(s, s', q);
    }
  }

  lemma ExecOk(s: Kernel, child: Pid)
    requires Inv(s) && child !in s.st
    ensures Inv(s.(st := s.st[child := Ready], table := s.table + {child}))
  {
    assert forall c :: child !in Queues(s)(c);
    assert forall c :: Queues(s)(c) == Waiting(s, c);
    SetOk(s, child, Ready);
    Unmoved(s.(st := s.st[child := Ready]), s.(st := s.st[child := Ready], table := s.table + {child}));
  }

  lemma WakeFromOk(s: Kernel, p: Pid, from: Status)
    requires Inv(s) && from != Blocked && from != Delete
    ensures Inv(WakeFrom(s, p, from))
  {
    if p in s.st && s.st[p] == from {
      assert forall c :: p !in Queues(s)(c);
      assert forall c :: Queues(s)(c) == Waiting(s, c);
      SetOk(s, p, Ready);
    }
  }

  /** The steps that touch no queue. */
  predicate OfProcesses(e: Event) {
    e.Kill? || e.Exec? || e.End? || e.WaitForKey? || e.WaitForForeground? || e.KeyFor? || e.Foreground?
  }

  lemma ProcessStepOk(s: Kernel, e: Event)
    requires Inv(s) && Legal(s, e) && OfProcesses(e)
    ensures Inv(Step(s, e)) && (Pending(s) ==> Pending(Step(s, e)))
  {
    match e
    case Kill(_, t) => if t in s.st { KillOk(s, t); }
    case Exec(_, child) => ExecOk(s, child);
    case End(p) => EndOk(s, p);
    case WaitForKey(p) => SetOk(s, p, BlockedRead);
    case WaitForForeground(p) => SetOk(s, p, BlockedForeground);
    case KeyFor(t) => WakeFromOk(s, t, BlockedRead);
    case Foreground(t) => WakeFromOk(s, t, BlockedForeground);
    case _ =>
  }

  lemma RelockOk(s: Kernel, p: Pid)
    requires Inv(s) && Legal(s, Relock(p))
    ensures Inv(Step(s, Relock(p))) && (Pending(s) ==> Pending(Step(s, Relock(p))))
  {
    var s1 := s.(relock := s.relock - {p});
    Unmoved(s, s1);
    assert forall c :: Waiting(s1, c) == Waiting(s, c);
    LockOk(s1, p, s.relock[p]);
  }

  lemma StepOk(s: Kernel, e: Event)
    requires Inv(s) && Legal(s, e)
    ensures Inv(Step(s, e)) && (Pending(s) ==> Pending(Step(s, e)))
  {
    match e
    case MutexLock(p, key) => LockOk(s, p, key);
    case MutexUnlock(_, key) => UnlockOk(s, key);
    case CondWait(p, cond, key) => WaitOk(s, p, cond, key);
    case Relock(p) => RelockOk(s, p);
    case CondSignal(_, cond) => SignalOk(s, cond);
    case CondBroadcast(_, cond) => BroadcastOk(s, cond);
    case FifoRead(p, fifo, bytes) => ReadOk(s, p, fifo, bytes);
    case FifoWrite(_, fifo, data) => WriteOk(s, fifo, data);
    case Sleep(p, milliseconds) => SleepOk(s, p, milliseconds);
    case TimerTick => TickOk(s);
    case _ => ProcessStepOk(s, e);
  }

  // ----- who there is -----

  /** Whoever is in the table has a page, and a page that is not marked DELETE is in the table. */
  ghost predicate Tabled(s: Kernel) {
    s.table <= s.st.Keys && forall p :: p in s.st && s.st[p] != Delete ==> p in s.table
  }

  /** The call changes no DELETE mark. */
  ghost predicate SameMarks(s: Kernel, s': Kernel) {
    && s'.table == s.table && s'.st.Keys == s.st.Keys
    && forall p :: p in s.st ==> (s.st[p] == Delete <==> s'.st[p] == Delete)
  }

  lemma WaitMarks(s: Kernel, p: Pid, cond: nat, key: nat)
    ensures SameMarks(s, WaitStep(s, p, cond, key))
  {
  }

  lemma WriteMarks(s: Kernel, f: nat, data: seq<Byte>)
    ensures SameMarks(s, FifoWriteStep(s, f, data))
  {
    if f in s.fifos { UnblockAllWakes(s.st, Readers(WriteStep(s.fifos[f], data).1)); }
  }

  lemma CallMarks(s: Kernel, e: Event)
    requires Legal(s, e) && !OfProcesses(e)
    ensures SameMarks(s, Step(s, e))
  {
    match e
    case CondWait(p, cond, key) => WaitMarks(s, p, cond, key);
    case CondBroadcast(_, cond) => if cond in s.conds { UnblockAllWakes(s.st, s.conds[cond]); }
    case FifoWrite(_, f, data) => WriteMarks(s, f, data);
    case TimerTick => UnblockAllWakes(s.st, Due(s.sleepers));
    case _ =>
  }

  lemma TabledOk(s: Kernel, e: Event)
    requires Tabled(s) && Legal(s, e)
    ensures Tabled(Step(s, e))
  {
    if !OfProcesses(e) { CallMarks(s, e); }
  }

  // ----- all runs -----

  ghost predicate Run(s: Kernel, es: seq<Event>, end: Kernel)
    decreases es
  {
    if es == [] then end == s else Legal(s, es[0]) && Run(Step(s, es[0]), es[1..], end)
  }

  /** Nobody waits and nothing is stored. */
  ghost predicate Quiescent(s: Kernel) {
    && Tabled(s) && (forall p :: p in s.st ==> s.st[p] != Blocked)
    && (forall c :: Waiting(s, c) == [])
  }

  lemma QuiescentOk(s: Kernel)
    requires Quiescent(s)
    ensures Inv(s) && Pending(s)
  {
    assert forall c :: Queues(s)(c) == [];
    forall k | k in s.mutexes ensures s.mutexes[k].queue == [] {
      assert Waiting(s, OfMutex(k)) == [];
    }
    forall k | k in s.fifos ensures s.fifos[k].readers == [] {
      assert |Waiting(s, OfFifo(k))| == 0;
    }
    assert |Waiting(s, OfTimer)| == 0;
  }

  lemma {:induction false} RunOk(s: Kernel, es: seq<Event>, end: Kernel)
    requires Inv(s) && Pending(s) && Tabled(s) && Run(s, es, end)
    ensures Inv(end) && Pending(end) && Tabled(end)
    decreases es
  {
    if es != [] {
      StepOk(s, es[0]);
      TabledOk(s, es[0]);
      RunOk(Step(s, es[0]), es[1..], end);
    }
  }

  /** Main result: in every run, with kills and with processes that come and go, a BLOCKED
      process is in exactly one queue, once; whoever is in a queue is BLOCKED and still there,
      or marked DELETE; and what it waits for has not happened yet, so that its wakeup is
      still to come. */
  lemma BlockedIffQueued(s: Kernel, es: seq<Event>, end: Kernel, p: Pid)
    requires Quiescent(s) && Run(s, es, end) && p in end.st
    ensures end.st[p] == Blocked ==> p in end.table && exists c :: p in Waiting(end, c)
    ensures end.st[p] != Delete ==> (end.st[p] == Blocked <==> exists c :: p in Waiting(end, c))
    ensures forall c, d :: p in Waiting(end, c) && p in Waiting(end, d) ==> c == d
    ensures forall c, q :: q in Waiting(end, c) ==> q in end.st && (end.st[q] == Blocked || end.st[q] == Delete)
    ensures forall c :: Distinct(Waiting(end, c))
    ensures Pending(end)
  {
    QuiescentOk(s);
    RunOk(s, es, end);
    assert forall c :: Queues(end)(c) == Waiting(end, c);
    if end.st[p] == Blocked {
      var c :| p in Queues(end)(c);
      assert p in Waiting(end, c);
    }
  }

  /** Main result: no step unblocks a process that waits elsewhere: whoever gets
      from BLOCKED to READY has left its queue and is in no other. */
  lemma NoStrayWakeup(s: Kernel, e: Event, q: Pid)
    requires Inv(s) && Legal(s, e) && q in s.st && q in Step(s, e).st
    requires s.st[q] == Blocked && Step(s, e).st[q] == Ready
    ensures (exists c :: q in Waiting(s, c)) && forall c :: q !in Waiting(Step(s, e), c)
  {
    StepOk(s, e);
    var c :| q in Queues(s)(c);
    assert q in Waiting(s, c);
    assert forall d :: Queues(Step(s, e))(d) == Waiting(Step(s, e), d);
  }
}
