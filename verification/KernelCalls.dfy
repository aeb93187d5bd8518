/** What each kernel call does to the processes and to what they wait for, said about the
    states before and after it. */
module KernelCalls {
  import opened Octets
  import opened Sequences
  import opened Sync
  import opened Processes
  import opened Fifo
  import opened Timer
  import opened KernelWaits
  import FifoStream
  import MutexToken
  import SleepDeadlines

  ghost predicate InQueue(s: Kernel, p: Pid) {
    exists c :: p in Waiting(s, c)
  }

  lemma QueuedStatus(s: Kernel, p: Pid, c: Chan)
    requires Inv(s) && p in Waiting(s, c)
    ensures p in s.st && (s.st[p] == Blocked || s.st[p] == Delete)
  {
    assert p in Queues(s)(c);
  }

  // ----- mutexes -----

  /** `p` has mutex `key`, or is its last waiter and blocked; nothing else changes. */
  ghost predicate Locks(s: Kernel, s': Kernel, p: Pid, key: nat)
    requires key in s.mutexes
  {
    && key in s'.mutexes && s' == s.(st := s'.st, mutexes := s.mutexes[key := s'.mutexes[key]])
    && var (m, m') := (s.mutexes[key], s'.mutexes[key]);
       && !m'.unlocked
       && if m.unlocked then m'.queue == m.queue && s'.st == s.st
          else m'.queue == m.queue + [p] && Parked(s.st, s'.st, p)
  }

  /** Everybody who waits for mutex `key` is marked DELETE, and it is free; or the first other one
      has it and is READY, and those behind it stay. Nothing else changes. */
  ghost predicate Unlocks(s: Kernel, s': Kernel, key: nat)
    requires key in s.mutexes
  {
    && key in s'.mutexes && s' == s.(st := s'.st, mutexes := s.mutexes[key := s'.mutexes[key]])
    && var (q, m') := (s.mutexes[key].queue, s'.mutexes[key]);
       if forall p :: p in q ==> p in s.st && s.st[p] == Delete then m' == Mutex(true, []) && s'.st == s.st
       else exists k: nat :: HandedTo(s.st, s'.st, q, k, m')
  }

  ghost predicate HandedTo(st: Statuses, st': Statuses, q: seq<Pid>, k: nat, m': Mutex) {
    && k < |q| && (forall j :: 0 <= j < k ==> q[j] in st && st[q[j]] == Delete)
    && q[k] in st && st[q[k]] != Delete
    && m' == Mutex(false, q[k + 1..]) && st' == st[q[k] := Ready]
  }

  lemma LockLaw(s: Kernel, p: Pid, key: nat)
    ensures key !in s.mutexes ==> Step(s, MutexLock(p, key)) == s
    ensures key in s.mutexes ==> Locks(s, Step(s, MutexLock(p, key)), p, key)
  {
  }

  lemma UnlockLaw(s: Kernel, p: Pid, key: nat)
    requires Inv(s)
    ensures key !in s.mutexes ==> Step(s, MutexUnlock(p, key)) == s
    ensures key in s.mutexes ==> Unlocks(s, Step(s, MutexUnlock(p, key)), key)
  {
    if key in s.mutexes {
      var q, dead := s.mutexes[key].queue, Dead(s.st);
      MutexToken.UnlockHandsOver(s.mutexes[key], dead);
      var (m, w) := Unlock(s.mutexes[key], dead);
      assert Waiting(s, OfMutex(key)) == q;
      if w.Some? {
        var k: nat :| MutexToken.ServedAt(q, k, w.value, m.queue, dead);
        assert q[k] in Waiting(s, OfMutex(key));
        QueuedStatus(s, q[k], OfMutex(key));
        assert HandedTo(s.st, Step(s, MutexUnlock(p, key)).st, q, k, m);
      }
    }
  }

  // ----- conditions -----

  /** After cond_wait the caller comes back only through the mutex that it left with. */
  lemma RelockLaw(s: Kernel, p: Pid)
    requires p in s.relock
    ensures var s1 := s.(relock := s.relock - {p});
      if s.relock[p] in s.mutexes then Locks(s1, Step(s, Relock(p)), p, s.relock[p]) else Step(s, Relock(p)) == s1
  {
  }

  /** cond_wait: the caller is the last waiter, blocked, and will lock `key` again; `key` is
      unlocked as mutex_unlock does it. */
  lemma WaitLaw(s: Kernel, p: Pid, cond: nat, key: nat)
    requires Inv(s) && cond in s.conds
    ensures var s' := Step(s, CondWait(p, cond, key));
      && s'.conds == s.conds[cond := s.conds[cond] + [p]] && s'.relock == s.relock[p := key]
      && exists t: Kernel :: (if key in s.mutexes then Unlocks(s, t, key) else t == s) && Parked(t.st, s'.st, p)
                             && s' == t.(st := s'.st, conds := s'.conds, relock := s'.relock)
  {
    UnlockLaw(s, p, key);
    var t := Step(s, MutexUnlock(p, key));
    var s' := Step(s, CondWait(p, cond, key));
    assert (if key in s.mutexes then Unlocks(s, t, key) else t == s) && Parked(t.st, s'.st, p);
  }

  /** The first waiter leaves the queue and is woken. */
  lemma SignalLaw(s: Kernel, p: Pid, cond: nat)
    requires cond in s.conds
    ensures var (q, s') := (s.conds[cond], Step(s, CondSignal(p, cond)));
      if q == [] then s' == s
      else s' == s.(conds := s.conds[cond := q[1..]], st := s'.st) && Woke(s.st, s'.st, [q[0]])
  {
    assert s.conds[cond] == [] ==> s.conds[cond := []] == s.conds;
  }

  lemma BroadcastLaw(s: Kernel, p: Pid, cond: nat)
    requires cond in s.conds
    ensures var s' := Step(s, CondBroadcast(p, cond));
      s' == s.(conds := s.conds[cond := []], st := s'.st) && Woke(s.st, s'.st, s.conds[cond])
  {
    UnblockAllWakes(s.st, s.conds[cond]);
  }

  // ----- FIFOs -----

  lemma ReadLaw(s: Kernel, p: Pid, fifo: nat, bytes: Amount)
    requires fifo in s.fifos
    ensures var s' := Step(s, FifoRead(p, fifo, bytes));
      && fifo in s'.fifos && s' == s.(st := s'.st, fifos := s.fifos[fifo := s'.fifos[fifo]])
      && var (f, f') := (s.fifos[fifo], s'.fifos[fifo]);
         if f.readers == [] && f.buf != [] then
           f'.readers == [] && s'.st == s.st && exists data :: data != [] && Taken(f.buf, data, f'.buf, bytes)
         else f' == f.(readers := f.readers + [Request(p, bytes)]) && Parked(s.st, s'.st, p)
  {
    var f := s.fifos[fifo];
    ReadTakes(f, Request(p, bytes));
    if f.readers == [] && f.buf != [] {
      var ds := ReadStep(f, Request(p, bytes)).1;
      assert ds[0].data != [];
    }
  }

  /** What a write delivers: the readers at the front get the bytes in order, each all it asks
      for, the last one perhaps what there is. */
  ghost predicate Serves(f: FifoState, f': FifoState, ds: seq<Delivery>) {
    && FifoStream.Answered(ds, f.readers) && f'.readers == f.readers[|ds|..]
    && FifoStream.Bytes(ds) + f'.buf == f.buf && (f'.readers == [] || f'.buf == [])
    && forall k :: 0 <= k < |ds| ==> FifoStream.Whole(ds[k], f.readers[k], k == |ds| - 1, f'.buf)
  }

  lemma WriteLaw(s: Kernel, p: Pid, fifo: nat, data: seq<Byte>) returns (a: seq<Byte>, ds: seq<Delivery>)
    requires fifo in s.fifos && |s.fifos[fifo].buf| <= BUF_SIZE
    ensures var s' := Step(s, FifoWrite(p, fifo, data));
      && fifo in s'.fifos && s' == s.(st := s'.st, fifos := s.fifos[fifo := s'.fifos[fifo]])
      && var (f, f') := (s.fifos[fifo], s'.fifos[fifo]);
         && a <= data && |f.buf + a| <= BUF_SIZE && (a == data || |f.buf + a| == BUF_SIZE)
         && Serves(f.(buf := f.buf + a), f', ds) && Woke(s.st, s'.st, Readers(ds))
  {
    var f := s.fifos[fifo];
    a := Accepted(f.buf, data);
    var g := f.(buf := f.buf + a);
    ds := Serve(g).1;
    FifoStream.ServeBytes(g);
    FifoStream.ServeOrder(g);
    FifoStream.ServeWhole(g);
    UnblockAllWakes(s.st, Readers(ds));
    AcceptedIs(f.buf, data);
  }

  // ----- the timer -----

  lemma SleepLaw(s: Kernel, p: Pid, milliseconds: nat) returns (k: nat)
    ensures var s' := Step(s, Sleep(p, milliseconds));
      && 55 * k <= milliseconds < 55 * (k + 1)
      && if k == 0 then s' == s
         else s' == s.(st := s'.st, sleepers := [Sleeper(p, k)] + s.sleepers) && Parked(s.st, s'.st, p)
  {
    k := WaitTicks(milliseconds);
  }

  /** The clock goes on by one; exactly those whose time it is are woken. */
  lemma TickLaw(s: Kernel, now: nat)
    requires Positive(s.sleepers)
    ensures var s' := Step(s, TimerTick);
      var d := SleepDeadlines.Deadlines(s.sleepers, now);
      && s' == s.(st := s'.st, sleepers := s'.sleepers)
      && SleepDeadlines.Deadlines(s'.sleepers, now + 1) == SleepDeadlines.After(d, now + 1)
      && Woke(s.st, s'.st, SleepDeadlines.At(d, now + 1))
  {
    SleepDeadlines.TickRefinesClock(s.sleepers, now);
    UnblockAllWakes(s.st, Due(s.sleepers));
  }

  // ----- processes -----

  /** Only the status of `p` may change. */
  ghost predicate OnlyStatus(s: Kernel, s': Kernel, p: Pid) {
    s' == s.(st := s'.st) && s'.st.Keys == s.st.Keys && forall q :: q in s.st && q != p ==> s'.st[q] == s.st[q]
  }

  /** kill marks every process of the table but init and the shell. */
  lemma KillLaw(s: Kernel, p: Pid, target: Pid)
    requires Tabled(s)
    ensures var s' := Step(s, Kill(p, target));
      && OnlyStatus(s, s', target)
      && (target in s.st ==> s'.st[target] == if target in s.table && target > 1 then Delete else s.st[target])
  {
  }

  /** A key wakes who waits for a key, the foreground who waits for the foreground, and nobody else. */
  lemma KeyLaw(s: Kernel, target: Pid)
    ensures var (s1, s2) := (Step(s, KeyFor(target)), Step(s, Foreground(target)));
      && OnlyStatus(s, s1, target) && OnlyStatus(s, s2, target)
      && (target in s.st ==>
            && s1.st[target] == (if s.st[target] == BlockedRead then Ready else s.st[target])
            && s2.st[target] == if s.st[target] == BlockedForeground then Ready else s.st[target])
  {
  }

  /** Who waits for a key does not run until a key comes for it, and then goes on as before. */
  lemma WaitForKeyLaw(s: Kernel, p: Pid)
    requires Runs(s, p)
    ensures var s' := Step(s, WaitForKey(p));
      OnlyStatus(s, s', p) && s'.st[p] == BlockedRead && !Runs(s', p) && Runs(Step(s', KeyFor(p)), p)
  {
    StatusRuns(s, p, Ready);
    assert s.st[p := BlockedRead][p := Ready] == s.st[p := Ready];
  }

  /** The same for the foreground. */
  lemma WaitForForegroundLaw(s: Kernel, p: Pid)
    requires Runs(s, p)
    ensures var s' := Step(s, WaitForForeground(p));
      OnlyStatus(s, s', p) && s'.st[p] == BlockedForeground && !Runs(s', p) && Runs(Step(s', Foreground(p)), p)
  {
    StatusRuns(s, p, Ready);
    assert s.st[p := BlockedForeground][p := Ready] == s.st[p := Ready];
  }

  lemma StatusRuns(s: Kernel, p: Pid, v: Status)
    requires Runs(s, p) && (v == Ready || v == Delete)
    ensures Runs(s.(st := s.st[p := v]), p)
  {
    var s' := s.(st := s.st[p := v]);
    assert forall c :: Waiting(s', c) == Waiting(s, c);
    assert forall c :: p !in Waiting(s', c);
  }

  /** A new process runs, and nothing else changes. */
  lemma ExecLaw(s: Kernel, p: Pid, child: Pid)
    requires Inv(s) && child !in s.st
    ensures var s' := Step(s, Exec(p, child));
      && Runs(s', child) && s' == s.(st := s'.st, table := s.table + {child})
      && s'.st.Keys == s.st.Keys + {child} && forall q :: q in s.st ==> s'.st[q] == s.st[q]
  {
    assert forall c :: child !in Queues(s)(c);
    assert forall c :: Queues(s)(c) == Waiting(s, c) == Waiting(Step(s, Exec(p, child)), c);
  }

  /** A process that ends, or is destroyed, never runs again unless it is created again, and
      nobody else changes. */
  lemma EndLaw(s: Kernel, p: Pid, e: Event)
    requires p in s.st
    ensures var s' := Step(s, End(p));
      && s' == s.(st := s'.st, table := s.table - {p}, relock := s.relock - {p})
      && (forall q :: q in s.st && (q != p || s.st[p] == Delete) ==> q in s'.st && s'.st[q] == s.st[q])
      && (p in s'.st <==> s.st[p] == Delete) && s'.st.Keys <= s.st.Keys
    ensures p !in s.table && !(e.Exec? && e.child == p) ==> p !in Step(s, e).table
  {
  }

  // ----- every step -----

  lemma BlockedIsQueued(s: Kernel, p: Pid)
    requires Inv(s) && p in s.st && s.st[p] == Blocked
    ensures InQueue(s, p)
  {
    var c :| p in Queues(s)(c);
    assert p in Waiting(s, c);
  }

  /** A call leaves a status alone, makes it READY, or blocks its caller. */
  lemma CallStatus(s: Kernel, e: Event, q: Pid)
    requires Legal(s, e) && !OfProcesses(e) && q in s.st
    ensures q in Step(s, e).st
    ensures Step(s, e).st[q] in {s.st[q], Ready, Blocked}
  {
    match e
    case CondBroadcast(p, c) => if c in s.conds { UnblockAllWakes(s.st, s.conds[c]); }
    case FifoWrite(_, f, data) =>
      if f in s.fifos { UnblockAllWakes(s.st, Readers(WriteStep(s.fifos[f], data).1)); }
    case TimerTick => UnblockAllWakes(s.st, Due(s.sleepers));
    case _ =>
  }

  /** The steps that touch no queue leave every queue as it was. */
  lemma QueuesKept(s: Kernel, e: Event, q: Pid)
    requires OfProcesses(e)
    ensures InQueue(Step(s, e), q) <==> InQueue(s, q)
  {
    assert forall c :: Waiting(Step(s, e), c) == Waiting(s, c);
  }

  /** Main result: whoever a step takes out of a queue is READY afterwards, or marked DELETE as
      before. */
  lemma LeaversAreReady(s: Kernel, e: Event, q: Pid)
    requires Inv(s) && Legal(s, e) && InQueue(s, q) && !InQueue(Step(s, e), q)
    ensures q in s.st && q in Step(s, e).st
    ensures Step(s, e).st[q] == if s.st[q] == Delete then Delete else Ready
  {
    var c :| q in Waiting(s, c);
    QueuedStatus(s, q, c);
    if OfProcesses(e) {
      QueuesKept(s, e, q);
    } else {
      CallMarks(s, e);
      CallStatus(s, e, q);
      StepOk(s, e);
      NotBlocked(Step(s, e), q);
    }
  }

  lemma NotBlocked(s: Kernel, p: Pid)
    requires Inv(s) && !InQueue(s, p)
    ensures p in s.st ==> s.st[p] != Blocked
  {
    if p in s.st && s.st[p] == Blocked { BlockedIsQueued(s, p); }
  }

  lemma UnlockWakes(s: Kernel, key: nat, q: Pid)
    requires Inv(s) && q in s.st && s.st[q] != Ready && UnlockStep(s, key).st[q] == Ready
    ensures InQueue(s, q)
  {
    assert Distinct(Queues(s)(OfMutex(key)));
    UnlockQueue(s.mutexes[key], Dead(s.st));
    assert q in Waiting(s, OfMutex(key));
  }

  lemma WriteWakes(s: Kernel, fifo: nat, data: seq<Byte>, q: Pid)
    requires Inv(s) && q in s.st && s.st[q] != Ready
    requires q in FifoWriteStep(s, fifo, data).st && FifoWriteStep(s, fifo, data).st[q] == Ready
    ensures InQueue(s, q)
  {
    var f0 := s.fifos[fifo];
    var f1 := f0.(buf := f0.buf + Accepted(f0.buf, data));
    assert Distinct(Queues(s)(OfFifo(fifo)));
    ServeQueue(f1);
    UnblockAllWakes(s.st, Readers(Serve(f1).1));
    assert q in Waiting(s, OfFifo(fifo));
  }

  lemma TickWakes(s: Kernel, q: Pid)
    requires Inv(s) && q in s.st && s.st[q] != Ready
    requires q in TickStep(s).st && TickStep(s).st[q] == Ready
    ensures InQueue(s, q)
  {
    assert Distinct(Queues(s)(OfTimer));
    TickQueue(s.sleepers);
    UnblockAllWakes(s.st, Due(s.sleepers));
    assert q in Waiting(s, OfTimer);
  }

  lemma SignalWakes(s: Kernel, cond: nat, q: Pid)
    requires q in s.st && s.st[q] != Ready
    requires || SignalStep(s, cond).st[q] == Ready
             || (q in BroadcastStep(s, cond).st && BroadcastStep(s, cond).st[q] == Ready)
    ensures InQueue(s, q)
  {
    UnblockAllWakes(s.st, s.conds[cond]);
    assert q in Waiting(s, OfCond(cond));
  }

  /** A call makes nobody READY who was in no queue. */
  lemma WokenWereQueued(s: Kernel, e: Event, q: Pid)
    requires Inv(s) && Legal(s, e) && !OfProcesses(e) && q in s.st && s.st[q] != Ready
    requires q in Step(s, e).st && Step(s, e).st[q] == Ready
    ensures InQueue(s, q)
  {
    match e
    case MutexUnlock(_, key) => UnlockWakes(s, key, q);
    case CondWait(_, _, key) => UnlockWakes(s, key, q);
    case CondSignal(_, cond) => SignalWakes(s, cond, q);
    case CondBroadcast(_, cond) => SignalWakes(s, cond, q);
    case FifoWrite(_, fifo, data) => WriteWakes(s, fifo, data, q);
    case TimerTick => TickWakes(s, q);
    case _ =>
  }

  /** Main result: a process that is in no queue before and after a call keeps its status. */
  lemma BystandersKeep(s: Kernel, e: Event, q: Pid)
    requires Inv(s) && Legal(s, e) && !OfProcesses(e) && q in s.st
    requires !InQueue(s, q) && !InQueue(Step(s, e), q)
    ensures q in Step(s, e).st && Step(s, e).st[q] == s.st[q]
  {
    CallStatus(s, e, q);
    StepOk(s, e);
    NotBlocked(Step(s, e), q);
    if Step(s, e).st[q] == Ready && s.st[q] != Ready { WokenWereQueued(s, e, q); }
  }
}
