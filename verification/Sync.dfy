/** The values that a mutex (kernelMutex.c) and a condition variable
    (condVariable.c) go through, as functions.  Processes.dfy proves the code
    against these functions; Philosophers.dfy, BoundedBuffer.dfy and
    KernelWaits.dfy use them as the meaning of one kernel call. */
module Sync {
  /** A process identity.  Identities are never reused. */
  type Pid = nat

  datatype Option<+T> = None | Some(value: T)

  /** `unlocked` is the exchanged word of the source, `queue` its process queue. */
  datatype Mutex = Mutex(unlocked: bool, queue: seq<Pid>)

  /** mutex_lock by `p`: the new mutex, and whether `p` goes on (true) or is queued. */
  function Lock(m: Mutex, p: Pid): (Mutex, bool) {
    if m.unlocked then (m.(unlocked := false), true)
    else (m.(queue := m.queue + [p]), false)
  }

  /** The queue from its first process that is not marked DELETE. */
  function DropDead(q: seq<Pid>, dead: set<Pid>): seq<Pid> {
    if q != [] && q[0] in dead then DropDead(q[1..], dead) else q
  }

  lemma {:induction false} DropDeadHead(q: seq<Pid>, dead: set<Pid>)
    ensures DropDead(q, dead) != [] ==> DropDead(q, dead)[0] !in dead
  {
    if q != [] && q[0] in dead {
      DropDeadHead(q[1..], dead);
    }
  }

  /** mutex_unlock: the new mutex, and the process that is handed the token. */
  function Unlock(m: Mutex, dead: set<Pid>): (Mutex, Option<Pid>) {
    var q := DropDead(m.queue, dead);
    if q == [] then (Mutex(true, []), None) else (Mutex(false, q[1..]), Some(q[0]))
  }

  /** The dequeue of cond_signal: the rest of the queue, and the process woken. */
  function Signal(q: seq<Pid>): (seq<Pid>, Option<Pid>) {
    if q == [] then (q, None) else (q[1..], Some(q[0]))
  }
}
