/** Sleeping processes (timer.c): a linked list of remaining ticks that the timer
    interrupt decrements and unlinks in place. */
module Timer {
  import opened Sync
  import opened Processes

  datatype Sleeper = Sleeper(p: Pid, ticks: nat)

  /** What one tick leaves of one sleeper, and whether it wakes it. */
  function Aged(s: Sleeper): seq<Sleeper> {
    if s.ticks <= 1 then [] else [s.(ticks := s.ticks - 1)]
  }

  function Woken(s: Sleeper): seq<Pid> {
    if s.ticks <= 1 then [s.p] else []
  }

  /** What one tick leaves, in the same order. */
  function Remaining(l: seq<Sleeper>): seq<Sleeper> {
    if l == [] then [] else Aged(l[0]) + Remaining(l[1..])
  }

  /** Whom one tick wakes, in the same order. */
  function Due(l: seq<Sleeper>): seq<Pid> {
    if l == [] then [] else Woken(l[0]) + Due(l[1..])
  }

  ghost predicate Positive(l: seq<Sleeper>) {
    forall k :: 0 <= k < |l| ==> l[k].ticks >= 1
  }

  /** One tick takes about 55 milliseconds. */
  function WaitTicks(milliseconds: nat): nat { milliseconds / 55 }

  // ----- the linked list -----

  class SleepNode {
    const p: Pid
    var ticks: nat
    var next: SleepNode?

    constructor (p: Pid, ticks: nat, next: SleepNode?)
      ensures this.p == p && this.ticks == ticks && this.next == next
    {
      this.p, this.ticks, this.next := p, ticks, next;
    }
  }

  ghost function Nodes(spine: seq<SleepNode>): set<object> {
    set k | 0 <= k < |spine| :: spine[k]
  }

  /** `spine` are the nodes of the list that starts at `first`. */
  ghost predicate Linked(first: SleepNode?, spine: seq<SleepNode>)
    reads Nodes(spine)
  {
    && (if spine == [] then first == null else first == spine[0] && spine[|spine| - 1].next == null)
    && (forall k :: 0 <= k < |spine| - 1 ==> spine[k].next == spine[k + 1])
    && (forall j, k :: 0 <= j < k < |spine| ==> spine[j] != spine[k])
  }

  ghost function Sleepers(spine: seq<SleepNode>): seq<Sleeper>
    reads Nodes(spine)
  {
    seq(|spine|, k requires 0 <= k < |spine| reads Nodes(spine) => Sleeper(spine[k].p, spine[k].ticks))
  }

  class SleepList {
    var first: SleepNode?
    ghost var spine: seq<SleepNode>

    ghost predicate Valid()
      reads this, Nodes(spine)
    {
      Linked(first, spine) && Positive(Sleepers(spine))
    }

    ghost function Value(): seq<Sleeper>
      reads this, Nodes(spine)
    {
      Sleepers(spine)
    }

    constructor ()
      ensures Valid() && Value() == [] && spine == []
    {
      first, spine := null, [];
    }

    /** sleep, up to the yield; `sleeping` is whether the caller blocks. */
    method Sleep(p: Pid, milliseconds: nat, procs: ProcessTable) returns (sleeping: bool)
      requires Valid()
      modifies this, procs
      ensures Valid() && fresh(Nodes(spine) - old(Nodes(spine)))
      ensures sleeping <==> WaitTicks(milliseconds) > 0
      ensures Value() == (if sleeping then [Sleeper(p, WaitTicks(milliseconds))] else []) + old(Value())
      ensures procs.st == if sleeping then Block(old(procs.st), p) else old(procs.st)
      ensures sleeping ==> var k := Value()[0].ticks; 55 * k <= milliseconds < 55 * (k + 1)
      ensures !sleeping ==> milliseconds < 55
    {
      var waitTicks := milliseconds / 55;
      if waitTicks == 0 {
        assert [] + Value() == Value();
        return false;
      }
      ghost var was := Value();
      var node := new SleepNode(p, waitTicks, first);
      first := node;
      spine := [node] + spine;
      procs.BlockProcess(p);
      assert Value() == [Sleeper(p, waitTicks)] + was;
      sleeping := true;
    }

    /** The loop of timer_handler is at the `i`-th node. */
    ghost predicate At(prev: SleepNode?, current: SleepNode?, i: nat)
      reads this, Nodes(spine)
    {
      && Linked(first, spine) && i <= |spine|
      && current == (if i < |spine| then spine[i] else null)
      && prev == (if i > 0 then spine[i - 1] else null)
    }

    /** Take the `i`-th node out of the list. */
    method Unlink(prev: SleepNode?, current: SleepNode, ghost i: nat)
      requires i < |spine| && At(prev, current, i)
      modifies this, prev
      ensures spine == old(spine)[..i] + old(spine)[i + 1..] && Value() == old(Value())[..i] + old(Value())[i + 1..]
      ensures At(prev, current.next, i)
    {
      if prev == null {
        first := current.next;
      } else {
        prev.next := current.next;
      }
      spine := spine[..i] + spine[i + 1..];
    }

    method Age(prev: SleepNode?, current: SleepNode, ghost i: nat)
      requires i < |spine| && At(prev, current, i) && current.ticks >= 1
      modifies current`ticks
      ensures At(prev, current, i) && current.ticks == old(current.ticks) - 1
      ensures Value() == old(Value())[i := old(Value())[i].(ticks := current.ticks)]
    {
      current.ticks := current.ticks - 1;
    }

    /** One turn of the loop of timer_handler. */
    method TickOne(prev: SleepNode?, current: SleepNode, procs: ProcessTable, ghost i: nat)
      returns (prev': SleepNode?, current': SleepNode?, ghost i': nat)
      requires i < |spine| && At(prev, current, i) && current.ticks >= 1
      modifies this, current, prev, procs
      ensures At(prev', current', i') && |spine| - i' < old(|spine|) - i
      ensures forall k :: 0 <= k < |spine| ==> spine[k] in old(spine)
      ensures (procs.st, Value(), i') == Turn(old(procs.st), old(Value()), i)
    {
      ghost var vals := Value();
      assert vals[i] == Sleeper(current.p, current.ticks);
      Age(prev, current, i);
      ghost var aged := Value();
      if current.ticks <= 0 {
        assert aged[..i] == vals[..i] && aged[i + 1..] == vals[i + 1..];
        Unlink(prev, current, i);
        procs.UnblockProcess(current.p);
        prev', i' := prev, i;
        assert Value() == vals[..i] + vals[i + 1..];
      } else {
        prev', i' := current, i + 1;
        assert Value() == vals[i := vals[i].(ticks := vals[i].ticks - 1)];
      }
      current' := current.next;
    }

    /** timer_handler */
    method TimerHandler(procs: ProcessTable)
      requires Valid()
      modifies this, Nodes(spine), procs
      ensures Valid() && Nodes(spine) <= old(Nodes(spine))
      ensures Value() == Remaining(old(Value()))
      ensures procs.st == UnblockAll(old(procs.st), Due(old(Value())))
      ensures Woke(old(procs.st), procs.st, Due(old(Value())))
    {
      UnblockAllWakes(procs.st, Due(Value()));
      var current := first;
      var prev: SleepNode? := null;
      ghost var nodes, start, st := Nodes(spine), Value(), procs.st;
      ghost var i: nat := 0;
      while current != null
        invariant At(prev, current, i) && Positive(Value())
        invariant forall k :: 0 <= k < |spine| ==> spine[k] in nodes
        invariant Result(procs.st, Value(), i) == Result(st, start, 0)
        decreases |spine| - i
      {
        assert current in nodes && (prev != null ==> prev in nodes);
        assert Value()[i].ticks >= 1;
        ResultStep(procs.st, Value(), i);
        prev, current, i := TickOne(prev, current, procs, i);
      }
      ResultEnd(procs.st, Value(), i);
      ResultEnd(st, start, 0);
    }
  }

  /** What the loop of timer_handler will come to when it is at the `i`-th sleeper:
      the list, and the process states. */
  ghost function Result(st: Statuses, l: seq<Sleeper>, i: nat): (seq<Sleeper>, Statuses)
    requires i <= |l|
  {
    (l[..i] + Remaining(l[i..]), UnblockAll(st, Due(l[i..])))
  }

  /** One turn of that loop. */
  ghost function Turn(st: Statuses, l: seq<Sleeper>, i: nat): (Statuses, seq<Sleeper>, nat)
    requires i < |l|
  {
    if l[i].ticks <= 1 then (Unblock(st, l[i].p), l[..i] + l[i + 1..], i)
    else (st, l[i := l[i].(ticks := l[i].ticks - 1)], i + 1)
  }

  lemma ResultStep(st: Statuses, l: seq<Sleeper>, i: nat)
    requires i < |l|
    ensures var (st', l', i') := Turn(st, l, i);
      Result(st, l, i) == Result(st', l', i') && (Positive(l) ==> Positive(l'))
  {
    assert l[i..][1..] == l[i + 1..];
    if l[i].ticks <= 1 {
      var l' := l[..i] + l[i + 1..];
      assert l'[..i] == l[..i] && l'[i..] == l[i + 1..];
      assert ([l[i].p] + Due(l[i + 1..]))[1..] == Due(l[i + 1..]);
      assert [] + Remaining(l[i + 1..]) == Remaining(l[i + 1..]);
    } else {
      var l' := l[i := l[i].(ticks := l[i].ticks - 1)];
      assert l'[i + 1..] == l[i + 1..] && l'[..i + 1] == l[..i] + Aged(l[i]);
      assert [] + Due(l[i + 1..]) == Due(l[i + 1..]);
      assert l[..i] + (Aged(l[i]) + Remaining(l[i + 1..])) == l'[..i + 1] + Remaining(l[i + 1..]);
    }
  }

  lemma ResultEnd(st: Statuses, l: seq<Sleeper>, i: nat)
    requires i == 0 || i == |l|
    ensures Result(st, l, i) == if i == |l| then (l, st) else (Remaining(l), UnblockAll(st, Due(l)))
  {
    if i == |l| {
      assert l[..i] + [] == l;
    } else {
      assert l[0..] == l && [] + Remaining(l) == Remaining(l);
    }
  }
}
