/** The scheduler's ring of nodes (processManager.c), unlinked in place while it is
    walked, proved against the sequences of Ring. */
module Scheduler {
  import opened Sync
  import opened Processes
  import opened Ring
  import opened Sequences

  const QUANTUM: int := 1
  const INIT: Pid := 0

  class RingNode {
    var quantum: int
    const p: Pid
    var next: RingNode?

    constructor (p: Pid)
      ensures this.p == p && quantum == QUANTUM && next == null
    {
      this.p, quantum, next := p, QUANTUM, null;
    }
  }

  /** Everybody in the ring is in the table; init takes part and can always run. */
  predicate Known(r: seq<Pid>, st: Statuses) {
    && (forall p :: p in r ==> p in st)
    && INIT in r && Runnable(st, INIT)
  }

  class Scheduler {
    var current: RingNode?
    var prev: RingNode?
    var superlock: int
    const procs: ProcessTable
    /** The nodes in ring order from `current` on, and their processes. */
    ghost var ring: seq<RingNode>
    ghost var pids: seq<Pid>
    /** All nodes ever linked in. */
    ghost var Repr: set<RingNode>

    /** One cycle through distinct nodes that starts at `current`. */
    ghost predicate Cycle()
      reads `current, `ring, `pids, `Repr, Repr`next
    {
      && (forall k :: 0 <= k < |ring| ==> ring[k] in Repr)
      && ring != [] && current == ring[0] && ring[|ring| - 1].next == ring[0]
      && (forall k :: 0 <= k < |ring| - 1 ==> ring[k].next == ring[k + 1])
      && |pids| == |ring| && (forall k :: 0 <= k < |ring| ==> ring[k].p == pids[k]) && Distinct(pids)
    }

    ghost predicate Valid()
      reads `current, `prev, `ring, `pids, `Repr, Repr`next, procs
    {
      && Cycle() && Known(pids, procs.st)
      && (prev == ring[|ring| - 1] || (prev == current && current.p == INIT))
    }

    /** The first process: init. */
    constructor (procs: ProcessTable)
      requires Runnable(procs.st, INIT)
      ensures Valid() && this.procs == procs && pids == [INIT] && superlock == UNLOCKED
      ensures fresh(Repr)
    {
      var node := new RingNode(INIT);
      current, prev, superlock := node, node, UNLOCKED;
      this.procs := procs;
      ring, pids, Repr := [node], [INIT], {node};
      new;
      node.next := node;
    }

    /** Links a node in right after the current one. */
    method Link(node: RingNode)
      requires Cycle() && node.p !in pids
      modifies `ring, `pids, `Repr, current`next, node`next
      ensures Cycle() && Repr == old(Repr) + {node} && ring == [old(ring)[0], node] + old(ring)[1..]
      ensures pids == [old(pids)[0], node.p] + old(pids)[1..]
    {
      node.next := current.next;
      current.next := node;
      ring, pids := [ring[0], node] + ring[1..], [pids[0], node.p] + pids[1..];
      Repr := Repr + {node};
    }

    /** add_process: the new node comes right after the current one. */
    method AddProcess(p: Pid)
      requires Valid() && p in procs.st && p !in pids
      modifies this, current
      ensures Valid() && fresh(Repr - old(Repr))
      ensures current == old(current) && prev == old(prev) && superlock == UNLOCKED
      ensures pids == [old(pids)[0], p] + old(pids)[1..]
    {
      InsertKnown(pids, p, procs.st);
      var node := new RingNode(p);
      superlock := LOCKED;
      Link(node);
      superlock := UNLOCKED;
    }

    /** One turn of the loop of set_next_current that leaves the process in the ring. */
    method StepOver()
      requires Cycle()
      modifies `current, `prev, `ring, `pids
      ensures Cycle() && prev == ring[|ring| - 1]
      ensures pids == old(pids)[1..] + [old(pids)[0]]
    {
      RotateDistinct(pids);
      prev := current;
      current := current.next;
      ring, pids := ring[1..] + [ring[0]], pids[1..] + [pids[0]];
      assert forall k :: 0 <= k < |old(ring)| ==> old(ring)[k] == ring[if k == 0 then |ring| - 1 else k - 1];
    }

    /** One turn that unlinks the process and destroys it. */
    method StepOut()
      requires Cycle() && prev == ring[|ring| - 1] && |ring| >= 2
      modifies `current, `ring, `pids, prev`next, procs
      ensures Cycle() && prev == ring[|ring| - 1]
      ensures pids == old(pids)[1..]
      ensures procs.st == old(procs.st) - {old(pids)[0]}
    {
      var next := current.next;
      prev.next := next;
      procs.st := procs.st - {current.p};   // destroy_process
      current := next;
      ring, pids := ring[1..], pids[1..];
      assert forall k :: 0 <= k < |ring| ==> ring[k] == old(ring)[k + 1];
    }

    /** Turn `i` of the loop of set_next_current on a ring `r` and a table `st`. */
    method WalkOne(ghost r: seq<Pid>, ghost st: Statuses, ghost i: nat)
      requires Cycle() && prev == ring[|ring| - 1]
      requires Distinct(r) && Known(r, st)
      requires i <= Stop(r, st) && (pids, procs.st) == Walk(r, st, i)
      requires current.p in procs.st && procs.st[current.p] != Ready
      modifies `current, `prev, `ring, `pids, prev`next, procs
      ensures Cycle() && prev == ring[|ring| - 1]
      ensures i < Stop(r, st) && (pids, procs.st) == Walk(r, st, i + 1)
    {
      assert current.p == pids[0];
      WalkTurn(r, st, i);
      if procs.st[current.p] == Delete {
        StepOut();
      } else {
        StepOver();
      }
    }

    /** set_next_current */
    method SetNextCurrent()
      requires Cycle() && Known(pids, procs.st) && prev == ring[|ring| - 1]
      modifies `current, `prev, `ring, `pids, Repr`next, procs
      ensures Cycle() && prev == ring[|ring| - 1]
      ensures (pids, procs.st) == Chosen(old(pids), old(procs.st))
    {
      ghost var r, st := pids, procs.st;
      WalkStart(r, st);
      ghost var i: nat := 0;
      while current.p in procs.st && procs.st[current.p] != Ready
        invariant Cycle() && prev == ring[|ring| - 1]
        invariant i <= Stop(r, st) && (pids, procs.st) == Walk(r, st, i)
        decreases |r| - i
      {
        WalkOne(r, st, i);
        i := i + 1;
      }
      WalkAt(r, st, i);
      assert current.p == pids[0];
    }

    /** `_unlocked` on the superlock: an atomic exchange that leaves it locked. */
    method Unlocked() returns (was: bool)
      modifies `superlock
      ensures superlock == LOCKED && was == (old(superlock) != LOCKED)
    {
      was := superlock != LOCKED;
      superlock := LOCKED;
    }

    /** next_process: the clock tick takes one quantum; once they are used up, and the
        superlock was free, the next runnable process of the ring becomes current. */
    method NextProcess() returns (switched: bool)
      requires Valid()
      modifies `current, `prev, `superlock, `ring, `pids, Repr`quantum, Repr`next, procs
      ensures Valid()
      ensures switched == (old(current.quantum) <= 1 && old(superlock) != LOCKED)
      ensures switched ==>
        && (pids, procs.st) == Switched(old(pids), old(procs.st))
        && Runnable(procs.st, current.p) && superlock == UNLOCKED
      ensures !switched ==>
        && (pids, procs.st) == (old(pids), old(procs.st)) && current == old(current)
        && superlock == if old(current.quantum) <= 1 then LOCKED else old(superlock)
      ensures old(current).quantum == if switched then QUANTUM else old(current.quantum) - 1
      ensures forall n :: n in Repr && n != old(current) ==> n.quantum == old(n.quantum)
    {
      switched := Tick();
      if switched {
        SwitchAway();
        superlock := UNLOCKED;
      }
    }

    /** The part of next_process that decides whether to switch. */
    method Tick() returns (go: bool)
      requires Valid()
      modifies `superlock, current`quantum
      ensures Valid() && go == (old(current.quantum) <= 1 && old(superlock) != LOCKED)
      ensures current.quantum == if go then QUANTUM else old(current.quantum) - 1
      ensures superlock == if old(current.quantum) <= 1 then LOCKED else old(superlock)
    {
      current.quantum := current.quantum - 1;   // unassign_quantum
      if current.quantum > 0 {
        return false;
      }
      go := Unlocked();
      if go {
        current.quantum := QUANTUM;
      }
    }

    /** The switch in next_process. */
    method SwitchAway()
      requires Cycle() && Known(pids, procs.st)
      modifies `current, `prev, `ring, `pids, Repr`next, procs
      ensures Valid() && Runnable(procs.st, current.p)
      ensures (pids, procs.st) == Switched(old(pids), old(procs.st))
    {
      SwitchedOk(pids, procs.st);
      RotateKnown(pids, procs.st);
      StepOver();
      SetNextCurrent();
    }

    /** assign_quantum */
    method AssignQuantum()
      requires Valid()
      modifies current`quantum
      ensures Valid() && current.quantum == old(current.quantum) + 1
    {
      current.quantum := current.quantum + 1;
    }

    /** The unlinking in end_process. */
    method Leave()
      requires Cycle() && Known(pids, procs.st) && prev == ring[|ring| - 1] && pids[0] != INIT
      modifies `current, `prev, `ring, `pids, Repr`next, procs
      ensures Valid() && Runnable(procs.st, current.p)
      ensures (pids, procs.st) == Ended(old(pids), old(procs.st))
    {
      EndedOk(pids, procs.st);
      EndKnown(pids, procs.st);
      StepOut();
      SetNextCurrent();
    }

    /** end_process up to its last store_page: no quantum has changed yet. */
    method Retire()
      requires Valid() && current.p != INIT
      modifies `current, `prev, `superlock, `ring, `pids, Repr`next, procs
      ensures Valid() && (pids, procs.st) == Ended(old(pids), old(procs.st))
      ensures Runnable(procs.st, current.p) && superlock == UNLOCKED
    {
      superlock := LOCKED;
      Leave();
      superlock := UNLOCKED;
    }

    /** end_process: the current process leaves ring and table, and the next runnable one
        becomes current with one quantum more. */
    method EndProcess()
      requires Valid() && current.p != INIT
      modifies `current, `prev, `superlock, `ring, `pids, Repr`quantum, Repr`next, procs
      ensures Valid()
      ensures (pids, procs.st) == Ended(old(pids), old(procs.st))
      ensures Runnable(procs.st, current.p) && superlock == UNLOCKED
      ensures forall n :: n in Repr ==> n.quantum == old(n.quantum) + if n == current then 1 else 0
    {
      Retire();
      AssignQuantum();
    }

    /** yield_process: the next process of the ring gets a quantum as the price for the rest
        of this one, and next_process is entered with nothing left. */
    method YieldProcess() returns (switched: bool)
      requires Valid()
      modifies `current, `prev, `superlock, `ring, `pids, Repr`quantum, Repr`next, procs
      ensures Valid()
      ensures switched == (old(superlock) != LOCKED)
      ensures switched ==>
        && (pids, procs.st) == Switched(old(pids), old(procs.st))
        && Runnable(procs.st, current.p) && superlock == UNLOCKED
      ensures !switched ==> (pids, procs.st) == (old(pids), old(procs.st)) && current == old(current)
      ensures old(current).quantum == if switched then QUANTUM else -1
      ensures |old(ring)| > 1 ==> old(ring[1]).quantum == old(ring[1].quantum) + 1
    {
      var next := current.next;
      assert next == ring[if |ring| == 1 then 0 else 1];
      next.quantum := next.quantum + 1;
      current.quantum := 0;
      switched := NextProcess();
    }
  }

  /** Ring and table after the current process ends. */
  function Ended(r: seq<Pid>, st: Statuses): (seq<Pid>, Statuses)
    requires Distinct(r) && Known(r, st) && r[0] != INIT
  {
    EndKnown(r, st);
    Chosen(r[1..], st - {r[0]})
  }

  lemma EndKnown(r: seq<Pid>, st: Statuses)
    requires Distinct(r) && Known(r, st) && r[0] != INIT
    ensures |r| >= 2 && Known(r[1..], st - {r[0]})
  {
  }

  lemma EndedOk(r: seq<Pid>, st: Statuses)
    requires Distinct(r) && Known(r, st) && r[0] != INIT
    ensures var (q, t) := Ended(r, st);
      && Known(q, t) && Runnable(t, q[0]) && r[0] !in q
      && ((forall p :: p in st <==> p in r) ==> forall p :: p in t <==> p in q)
  {
  }

  /** Ring and table after a context switch. */
  function Switched(r: seq<Pid>, st: Statuses): (seq<Pid>, Statuses)
    requires Known(r, st)
  {
    RotateKnown(r, st);
    Chosen(r[1..] + [r[0]], st)
  }

  lemma RotateKnown(r: seq<Pid>, st: Statuses)
    requires Known(r, st)
    ensures Known(r[1..] + [r[0]], st)
  {
  }

  /** set_next_current loses nobody but the processes marked DELETE, and those it also
      takes out of the table. */
  lemma ChosenOk(r: seq<Pid>, st: Statuses)
    requires Distinct(r) && Known(r, st)
    ensures var (q, t) := Chosen(r, st);
      && Known(q, t) && Runnable(t, q[0])
      && ((forall p :: p in st <==> p in r) ==> forall p :: p in t <==> p in q)
  {
  }

  lemma SwitchedOk(r: seq<Pid>, st: Statuses)
    requires Distinct(r) && Known(r, st)
    ensures var (q, t) := Switched(r, st);
      && Known(q, t) && Runnable(t, q[0])
      && ((forall p :: p in st <==> p in r) ==> forall p :: p in t <==> p in q)
  {
    RotateKnown(r, st);
    RotateDistinct(r);
    assert forall p :: p in r <==> p in r[1..] + [r[0]] by { assert r == [r[0]] + r[1..]; }
    ChosenOk(r[1..] + [r[0]], st);
  }

  lemma KnownRunnable(r: seq<Pid>, st: Statuses)
    requires Known(r, st)
    ensures SomeRunnable(r, st)
  {
  }

  /** How many turns the loop takes. */
  function Stop(r: seq<Pid>, st: Statuses): (n: nat)
    requires Known(r, st)
    ensures n < |r| && Runnable(st, r[n]) && forall j :: 0 <= j < n ==> !Runnable(st, r[j])
  {
    KnownRunnable(r, st);
    First(r, st)
  }

  /** Ring and table after set_next_current. */
  function Chosen(r: seq<Pid>, st: Statuses): (seq<Pid>, Statuses)
    requires Known(r, st)
  {
    KnownRunnable(r, st);
    (Skip(r, st), st - Dropped(r[..Stop(r, st)], st))
  }

  lemma RotateDistinct(r: seq<Pid>)
    requires Distinct(r) && r != []
    ensures Distinct(r[1..] + [r[0]])
  {
  }

  lemma InsertKnown(r: seq<Pid>, p: Pid, st: Statuses)
    requires Known(r, st) && r != [] && p in st
    ensures Known([r[0], p] + r[1..], st)
  {
  }

  /** The loop has taken `i` turns: it stands on `r[i]`, and stops at the first runnable. */
  lemma WalkAt(r: seq<Pid>, st: Statuses, i: nat)
    requires Distinct(r) && Known(r, st) && i <= Stop(r, st)
    ensures var (q, t) := Walk(r, st, i);
      && q != [] && q[0] == r[i] && q[0] in t && t[q[0]] == st[r[i]]
      && (i == Stop(r, st) <==> t[q[0]] == Ready)
      && (i == Stop(r, st) ==> Walk(r, st, i) == Chosen(r, st))
  {
  }

  /** One turn of the loop of set_next_current on a ring that starts at `r[0]`. */
  function Turn(r: seq<Pid>, st: Statuses): (seq<Pid>, Statuses)
    requires r != []
  {
    if Marked(st, r[0]) then (r[1..], st - {r[0]}) else (r[1..] + [r[0]], st)
  }

  /** The ring and the table after `i` turns. */
  function Walk(r: seq<Pid>, st: Statuses, i: nat): (seq<Pid>, Statuses)
    requires i <= |r|
  {
    (r[i..] + Unmarked(r[..i], st), st - Dropped(r[..i], st))
  }

  lemma WalkStart(r: seq<Pid>, st: Statuses)
    ensures Walk(r, st, 0) == (r, st)
  {
    assert r[..0] == [] && r[0..] == r && r + [] == r;
    assert Dropped([], st) == {} && st - {} == st;
  }

  lemma WalkRing(r: seq<Pid>, st: Statuses, i: nat)
    requires i < |r|
    ensures var q := Walk(r, st, i).0;
      && q != [] && q[0] == r[i]
      && Walk(r, st, i + 1).0 == if Marked(st, r[i]) then q[1..] else q[1..] + [q[0]]
  {
    var u := Unmarked(r[..i], st);
    assert r[..i + 1] == r[..i] + [r[i]];
    UnmarkedAppend(r[..i], r[i], st);
    assert (r[i..] + u)[1..] == r[i + 1..] + u;
  }

  lemma WalkTable(r: seq<Pid>, st: Statuses, i: nat)
    requires Distinct(r) && i < |r| && r[i] in st
    ensures var t := Walk(r, st, i).1;
      && r[i] in t && t[r[i]] == st[r[i]]
      && Walk(r, st, i + 1).1 == if Marked(st, r[i]) then t - {r[i]} else t
  {
  }

  lemma WalkStep(r: seq<Pid>, st: Statuses, i: nat)
    requires Distinct(r) && i < |r| && r[i] in st
    ensures var (q, t) := Walk(r, st, i);
      && q != [] && q[0] == r[i] && r[i] in t && t[r[i]] == st[r[i]]
      && Turn(q, t) == Walk(r, st, i + 1)
  {
    WalkRing(r, st, i);
    WalkTable(r, st, i);
  }

  /** The loop goes on: it is not at its end, and init is further on in the ring. */
  lemma WalkTurn(r: seq<Pid>, st: Statuses, i: nat)
    requires Distinct(r) && Known(r, st) && i <= Stop(r, st)
    requires var (q, t) := Walk(r, st, i); q != [] && q[0] in t && t[q[0]] != Ready
    ensures var (q, t) := Walk(r, st, i);
      && i < Stop(r, st) && |q| >= 2
      && Walk(r, st, i + 1) == Turn(q, t)
  {
    var (q, t) := Walk(r, st, i);
    WalkAt(r, st, i);
    WalkStep(r, st, i);
    WalkKnown(r, st, i);
    assert INIT in q && INIT != q[0];
  }

  /** Whoever is left in the ring is still in the table. */
  lemma WalkKnown(r: seq<Pid>, st: Statuses, i: nat)
    requires Distinct(r) && i <= |r| && forall p :: p in r ==> p in st
    ensures var (q, t) := Walk(r, st, i);
      && (forall p :: p in q ==> p in t)
      && (forall p :: p in r && !Marked(st, p) ==> p in q && t[p] == st[p])
  {
  }
}
