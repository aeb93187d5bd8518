/** One open mutex as a token (kernelMutex.c), over every run of lock, unlock
    and kill: who has it, who is served next, and who was passed over. */
module MutexToken {
  import opened Sync

  /** A process that has left the queue: with the mutex, or dropped because it is marked DELETE. */
  datatype Departure = Granted(p: Pid) | Dropped(p: Pid)

  datatype Event = LockBy(p: Pid) | UnlockBy(p: Pid) | Kill(p: Pid)

  /** `holder` is whoever was last given the mutex; `arrivals` are the callers of
      mutex_lock in order, `departures` what became of them, also in order. */
  datatype State = State(m: Mutex, holder: Option<Pid>, dead: set<Pid>,
                         arrivals: seq<Pid>, departures: seq<Departure>)

  const Start := State(Mutex(true, []), None, {}, [], [])

  function Drops(q: seq<Pid>, dead: set<Pid>): seq<Departure> {
    if q != [] && q[0] in dead then [Dropped(q[0])] + Drops(q[1..], dead) else []
  }

  function Step(s: State, e: Event): State {
    match e
    case LockBy(p) =>
      var (m, ok) := Lock(s.m, p);
      if ok then s.(m := m, holder := Some(p), arrivals := s.arrivals + [p], departures := s.departures + [Granted(p)])
      else s.(m := m, arrivals := s.arrivals + [p])
    case UnlockBy(_) =>
      var (m, w) := Unlock(s.m, s.dead);
      s.(m := m, holder := w,
         departures := s.departures + Drops(s.m.queue, s.dead) + (if w.Some? then [Granted(w.value)] else []))
    case Kill(p) => s.(dead := s.dead + {p})
  }

  function Run(s: State, es: seq<Event>): State
    decreases es
  {
    if es == [] then s else Run(Step(s, es[0]), es[1..])
  }

  function Pids(d: seq<Departure>): seq<Pid> {
    seq(|d|, k requires 0 <= k < |d| => d[k].p)
  }

  ghost predicate Inv(s: State) {
    && (s.m.unlocked <==> s.holder == None)
    && (s.m.unlocked ==> s.m.queue == [])
    && s.arrivals == Pids(s.departures) + s.m.queue
    && (forall k :: 0 <= k < |s.departures| && s.departures[k].Dropped? ==> s.departures[k].p in s.dead)
  }

  ghost predicate ServedAt(q: seq<Pid>, k: nat, p: Pid, rest: seq<Pid>, dead: set<Pid>) {
    k < |q| && q[k] == p && rest == q[k + 1..] && forall j :: 0 <= j < k ==> q[j] in dead
  }

  /** What unlocking hands over, said about the queue itself: everybody before the
      new holder is marked DELETE and the new holder is not. */
  lemma {:induction false} UnlockHandsOver(m: Mutex, dead: set<Pid>)
    ensures var (m', w) := Unlock(m, dead);
      && (w.None? <==> forall k :: 0 <= k < |m.queue| ==> m.queue[k] in dead)
      && (w.None? ==> m' == Mutex(true, []))
      && (w.Some? ==> !m'.unlocked && w.value !in dead && exists k :: ServedAt(m.queue, k, w.value, m'.queue, dead))
    decreases |m.queue|
  {
    if m.queue != [] && m.queue[0] in dead {
      var rest := Mutex(m.unlocked, m.queue[1..]);
      UnlockHandsOver(rest, dead);
      var (m', w) := Unlock(rest, dead);
      assert Unlock(m, dead) == (m', w);
      assert w.None? ==> forall k :: 0 < k < |m.queue| ==> m.queue[k] == rest.queue[k - 1];
      if w.Some? {
        var k: nat :| ServedAt(rest.queue, k, w.value, m'.queue, dead);
        forall j | 0 <= j < k + 1 ensures m.queue[j] in dead {
          if j > 0 { assert m.queue[j] == rest.queue[j - 1]; }
        }
        assert m'.queue == m.queue[k + 2..];
        assert ServedAt(m.queue, k + 1, w.value, m'.queue, dead);
      }
    } else if m.queue != [] {
      assert ServedAt(m.queue, 0, m.queue[0], m.queue[1..], dead);
    }
  }

  lemma {:induction false} DropsPartition(q: seq<Pid>, dead: set<Pid>)
    ensures q == Pids(Drops(q, dead)) + DropDead(q, dead)
    ensures forall k :: 0 <= k < |Drops(q, dead)| ==> Drops(q, dead)[k].Dropped? && Drops(q, dead)[k].p in dead
  {
    if q != [] && q[0] in dead {
      DropsPartition(q[1..], dead);
      assert Pids(Drops(q, dead)) == [q[0]] + Pids(Drops(q[1..], dead));
      assert q == [q[0]] + q[1..];
    }
  }

  lemma StepOk(s: State, e: Event)
    requires Inv(s)
    ensures Inv(Step(s, e))
  {
    var s' := Step(s, e);
    match e
    case LockBy(p) =>
      if s.m.unlocked {
        assert Pids(s'.departures) == Pids(s.departures) + [p];
      } else {
        assert Pids(s.departures) + s.m.queue + [p] == Pids(s.departures) + (s.m.queue + [p]);
      }
    case UnlockBy(p) =>
      var drops, q := Drops(s.m.queue, s.dead), DropDead(s.m.queue, s.dead);
      DropsPartition(s.m.queue, s.dead);
      if q == [] {
        assert Pids(s'.departures) == Pids(s.departures) + Pids(drops);
      } else {
        assert Pids(s'.departures) == Pids(s.departures) + Pids(drops) + [q[0]];
        assert q == [q[0]] + q[1..];
      }
    case Kill(_) =>
  }

  lemma {:induction false} RunOk(s: State, es: seq<Event>)
    requires Inv(s)
    ensures Inv(Run(s, es))
    decreases es
  {
    if es != [] {
      StepOk(s, es[0]);
      RunOk(Step(s, es[0]), es[1..]);
    }
  }

  /** Main result: in every run a free mutex has no waiters, the mutex is held
      exactly when it is locked, and callers leave in the order in which they
      came, each of them with the mutex unless it is marked DELETE. */
  lemma TokenConserved(es: seq<Event>)
    ensures var s := Run(Start, es);
      && (s.m.unlocked ==> s.m.queue == [])
      && (s.m.unlocked <==> s.holder == None)
      && s.arrivals == Pids(s.departures) + s.m.queue
      && (forall k :: 0 <= k < |s.departures| && s.departures[k].p !in s.dead ==> s.departures[k].Granted?)
  {
    assert Inv(Start);
    RunOk(Start, es);
  }

  /** The holder alone unlocks. */
  ghost predicate OnlyHolderUnlocks(s: State, es: seq<Event>)
    decreases es
  {
    es == [] || ((es[0].UnlockBy? ==> s.holder == Some(es[0].p)) && OnlyHolderUnlocks(Step(s, es[0]), es[1..]))
  }

  function UnlocksOf(p: Pid, es: seq<Event>): nat {
    if es == [] then 0 else (if es[0] == UnlockBy(p) then 1 else 0) + UnlocksOf(p, es[1..])
  }

  /** Mutual exclusion: a process that was given the mutex keeps it, whatever the
      others do, until it unlocks. */
  lemma {:induction false} HolderKeeps(s: State, es: seq<Event>, p: Pid)
    requires Inv(s) && s.holder == Some(p) && OnlyHolderUnlocks(s, es) && UnlocksOf(p, es) == 0
    ensures Run(s, es).holder == Some(p) && !Run(s, es).m.unlocked
    decreases es
  {
    if es != [] {
      StepOk(s, es[0]);
      HolderKeeps(Step(s, es[0]), es[1..], p);
    }
  }

  /** An unlock with a live waiter leaves no state in which the mutex is free:
      a newcomer's lock right after it is queued behind every earlier waiter. */
  lemma NoOvertaking(s: State, p: Pid, newcomer: Pid, w: Pid)
    requires Inv(s) && w in s.m.queue && w !in s.dead
    ensures var s' := Step(Step(s, UnlockBy(p)), LockBy(newcomer));
      && s'.holder.Some? && s'.holder.value in s.m.queue && s'.holder.value !in s.dead
      && s'.m.queue != [] && s'.m.queue[|s'.m.queue| - 1] == newcomer
  {
    UnlockHandsOver(s.m, s.dead);
  }
}
