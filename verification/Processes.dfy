/** Process states (process.c) and the kernel mutex and condition objects
    (kernelMutex.c, condVariable.c), proved against the functions of Sync. */
module Processes {
  import opened Sync
  import opened Queue

  datatype Status = Ready | Blocked | BlockedRead | BlockedForeground | Delete

  type Statuses = map<Pid, Status>

  function Block(st: Statuses, p: Pid): Statuses {
    if p in st && st[p] != Delete then st[p := Blocked] else st
  }

  function Unblock(st: Statuses, p: Pid): Statuses {
    if p in st && st[p] != Delete then st[p := Ready] else st
  }

  function UnblockOption(st: Statuses, p: Option<Pid>): Statuses {
    if p.Some? then Unblock(st, p.value) else st
  }

  function UnblockAll(st: Statuses, ps: seq<Pid>): Statuses {
    if ps == [] then st else UnblockAll(Unblock(st, ps[0]), ps[1..])
  }

  /** Everybody unblocked is READY, unless marked DELETE, and nobody else changes. */
  ghost predicate Woke(st: Statuses, st': Statuses, ps: seq<Pid>) {
    && st'.Keys == st.Keys
    && forall q :: q in st ==> st'[q] == if q in ps && st[q] != Delete then Ready else st[q]
  }

  /** `p` is BLOCKED, unless marked DELETE, and nobody else changes. */
  ghost predicate Parked(st: Statuses, st': Statuses, p: Pid) {
    && st'.Keys == st.Keys
    && forall q :: q in st ==> st'[q] == if q == p && st[q] != Delete then Blocked else st[q]
  }

  lemma {:induction false} UnblockAllWakes(st: Statuses, ps: seq<Pid>)
    ensures Woke(st, UnblockAll(st, ps), ps)
    decreases |ps|
  {
    if ps != [] {
      UnblockAllWakes(Unblock(st, ps[0]), ps[1..]);
      assert forall q :: q in ps <==> q == ps[0] || q in ps[1..];
    }
  }

  function Dead(st: Statuses): set<Pid> {
    set p | p in st && st[p] == Delete
  }

  /** The processes that the scheduler knows, each with its state. */
  class ProcessTable {
    var st: Statuses

    constructor (st: Statuses)
      ensures this.st == st
    {
      this.st := st;
    }

    method BlockProcess(p: Pid)
      modifies this
      ensures st == Block(old(st), p)
    {
      if p in st && st[p] != Delete {
        st := st[p := Blocked];
      }
    }

    method UnblockProcess(p: Pid)
      modifies this
      ensures st == Unblock(old(st), p)
    {
      if p in st && st[p] != Delete {
        st := st[p := Ready];
      }
    }

    /** kill_process: the processes 0 (init) and 1 (shell) cannot be marked. */
    method KillProcess(p: Pid)
      modifies this
      ensures st == if p in old(st) && p != 0 && p != 1 then old(st)[p := Delete] else old(st)
    {
      if p in st && p != 1 && p != 0 {
        st := st[p := Delete];
      }
    }
  }

  const LOCKED: int := 0
  const UNLOCKED: int := 1

  class KernelMutex {
    var locked: int
    const queue: LinkedQueue<Pid>

    ghost function Repr(): set<object>
      reads this, queue
    {
      {this} + queue.Repr()
    }

    ghost predicate Valid()
      reads this, queue, queue.Repr()
    {
      this !in queue.Repr() && queue.Valid() && (locked == LOCKED || locked == UNLOCKED)
    }

    ghost function Value(): Mutex
      reads this, queue, queue.Repr()
    {
      Mutex(locked == UNLOCKED, queue.Contents())
    }

    constructor ()
      ensures Valid() && fresh(Repr()) && Value() == Mutex(true, [])
    {
      locked := UNLOCKED;
      queue := new LinkedQueue<Pid>();
    }

    /** mutex_lock up to the yield; `acquired` when the caller goes on. */
    method Lock(p: Pid, procs: ProcessTable) returns (acquired: bool)
      requires Valid() && procs !in Repr()
      modifies Repr(), procs
      ensures Valid() && fresh(Repr() - old(Repr()))
      ensures (Value(), acquired) == Sync.Lock(old(Value()), p)
      ensures procs.st == if acquired then old(procs.st) else Block(old(procs.st), p)
      ensures acquired == (old(locked) == UNLOCKED) && locked == LOCKED
      ensures queue.Contents() == old(queue.Contents()) + if acquired then [] else [p]
      ensures if acquired then procs.st == old(procs.st) else Parked(old(procs.st), procs.st, p)
    {
      var was := locked;   // _unlocked: an atomic exchange
      locked := LOCKED;
      acquired := was == UNLOCKED;
      if !acquired {
        queue.Enqueue(p);
        procs.BlockProcess(p);
      }
    }

    /** dequeue_process until it yields a process that is not marked DELETE. */
    method DequeueLiving(procs: ProcessTable) returns (p: Option<Pid>)
      requires Valid() && procs !in Repr()
      modifies queue, queue.Repr()
      ensures Valid() && Repr() <= old(Repr()) && locked == old(locked)
      ensures var q := DropDead(old(queue.Contents()), Dead(procs.st));
        if p.None? then q == [] && queue.Contents() == [] else q == [p.value] + queue.Contents()
    {
      ghost var dead, q := Dead(procs.st), DropDead(queue.Contents(), Dead(procs.st));
      p := queue.Dequeue();
      while p.Some? && p.value in procs.st && procs.st[p.value] == Delete
        invariant Valid() && Repr() <= old(Repr())
        invariant p.None? ==> queue.Contents() == [] && q == []
        invariant p.Some? ==> DropDead([p.value] + queue.Contents(), dead) == q
        decreases p.Some?, |queue.Contents()|
      {
        ghost var rest := [p.value] + queue.Contents();
        assert rest[1..] == queue.Contents();
        p := queue.Dequeue();
        if p.Some? { assert rest[1..] == [p.value] + queue.Contents(); }
      }
    }

    /** mutex_unlock: the first queued process that is not marked DELETE gets the mutex. */
    method Unlock(procs: ProcessTable) returns (ghost woken: Option<Pid>)
      requires Valid() && procs !in Repr()
      modifies Repr(), procs
      ensures Valid() && Repr() <= old(Repr())
      ensures (Value(), woken) == Sync.Unlock(old(Value()), Dead(old(procs.st)))
      ensures procs.st == UnblockOption(old(procs.st), woken)
      ensures woken.None? ==> locked == UNLOCKED && procs.st == old(procs.st)
      ensures woken.Some? ==> locked == LOCKED && woken.value !in Dead(old(procs.st))
      ensures woken.Some? && woken.value in old(procs.st) ==> procs.st == old(procs.st)[woken.value := Ready]
    {
      DropDeadHead(queue.Contents(), Dead(procs.st));
      var p := DequeueLiving(procs);
      if p.Some? { assert ([p.value] + queue.Contents())[1..] == queue.Contents(); }
      woken := p;
      locked := UNLOCKED;
      if p.Some? {
        procs.UnblockProcess(p.value);
        locked := LOCKED;
      }
    }
  }

  class Condition {
    const queue: LinkedQueue<Pid>

    ghost function Repr(): set<object>
      reads this, queue
    {
      {this} + queue.Repr()
    }

    ghost predicate Valid()
      reads this, queue, queue.Repr()
    {
      this !in queue.Repr() && queue.Valid()
    }

    ghost function Value(): seq<Pid>
      reads this, queue, queue.Repr()
    {
      queue.Contents()
    }

    constructor ()
      ensures Valid() && fresh(Repr()) && Value() == []
    {
      queue := new LinkedQueue<Pid>();
    }

    /** cond_wait up to the yield: the mutex is released and the caller is queued
        and blocked in one step. */
    method Wait(p: Pid, m: KernelMutex, procs: ProcessTable) returns (ghost woken: Option<Pid>)
      requires Valid() && m.Valid() && Repr() !! m.Repr() && procs !in Repr() + m.Repr()
      modifies Repr(), m.Repr(), procs
      ensures Valid() && m.Valid() && fresh(Repr() - old(Repr())) && m.Repr() <= old(m.Repr())
      ensures (m.Value(), woken) == Sync.Unlock(old(m.Value()), Dead(old(procs.st)))
      ensures Value() == old(Value()) + [p]
      ensures procs.st == Block(UnblockOption(old(procs.st), woken), p)
      ensures forall q :: q in old(procs.st) && q != p ==>
                procs.st[q] == if woken == Some(q) then Ready else old(procs.st)[q]
      ensures p in old(procs.st) && woken != Some(p) && old(procs.st)[p] != Delete ==> procs.st[p] == Blocked
    {
      ghost var mine, theirs := Repr(), m.Repr();
      woken := m.Unlock(procs);
      assert Repr() == mine && Valid() && Value() == old(Value());
      assert m.Repr() <= theirs;
      Park(p, procs);
    }

    /** Queues and blocks the caller. */
    method Park(p: Pid, procs: ProcessTable)
      requires Valid() && procs !in Repr()
      modifies Repr(), procs
      ensures Valid() && fresh(Repr() - old(Repr()))
      ensures Value() == old(Value()) + [p] && procs.st == Block(old(procs.st), p)
    {
      queue.Enqueue(p);
      procs.BlockProcess(p);
    }

    /** cond_signal */
    method Signal(procs: ProcessTable) returns (ghost woken: Option<Pid>)
      requires Valid() && procs !in Repr()
      modifies Repr(), procs
      ensures Valid() && Repr() <= old(Repr())
      ensures (Value(), woken) == Sync.Signal(old(Value()))
      ensures procs.st == UnblockOption(old(procs.st), woken)
      ensures if old(Value()) == [] then woken == None && Value() == []
              else woken == Some(old(Value())[0]) && Value() == old(Value())[1..]
      ensures Woke(old(procs.st), procs.st, if woken.Some? then [woken.value] else [])
    {
      var p := queue.Dequeue();
      woken := p;
      if p.Some? {
        procs.UnblockProcess(p.value);
      }
    }

    /** cond_broadcast */
    method Broadcast(procs: ProcessTable)
      requires Valid() && procs !in Repr()
      modifies Repr(), procs
      ensures Valid() && Repr() <= old(Repr())
      ensures Value() == [] && procs.st == UnblockAll(old(procs.st), old(Value()))
      ensures Woke(old(procs.st), procs.st, old(Value()))
    {
      UnblockAllWakes(procs.st, Value());
      var empty := queue.IsEmpty();
      while !empty
        invariant Valid() && Repr() <= old(Repr())
        invariant empty <==> Value() == []
        invariant UnblockAll(procs.st, Value()) == UnblockAll(old(procs.st), old(Value()))
        decreases |Value()|
      {
        var p := queue.Dequeue();
        procs.UnblockProcess(p.value);
        empty := queue.IsEmpty();
      }
    }
  }
}
