/** How long a runnable process waits for its turn, and in which order the turns come, over
    whole runs of the scheduler (processManager.c). */
module Fairness {
  import opened Sync
  import opened Processes
  import opened Ring
  import opened Scheduler
  import opened Sequences

  /** The ring from the current process on, and the state of every process. */
  datatype State = State(ring: seq<Pid>, st: Statuses)

  datatype Event =
    | Switch                    // next_process takes the quantum away, or yield_process
    | End                       // end_process
    | Insert(p: Pid)            // exec_process
    | Change(st: Statuses)      // processes block, are woken, are marked DELETE

  ghost predicate Ok(s: State) {
    Distinct(s.ring) && Known(s.ring, s.st)
  }

  ghost predicate Legal(s: State, e: Event)
    requires Ok(s)
  {
    match e
    case Switch => true
    case End => s.ring[0] != INIT
    case Insert(p) => p !in s.st
    case Change(st) => st.Keys == s.st.Keys && Runnable(st, INIT)
  }

  ghost function Apply(s: State, e: Event): (s': State)
    requires Ok(s) && Legal(s, e)
    ensures Ok(s')
  {
    match e
    case Switch =>
      SwitchedOk(s.ring, s.st);
      SkipDistinct(s.ring[1..] + [s.ring[0]], s.st);
      State(Switched(s.ring, s.st).0, Switched(s.ring, s.st).1)
    case End =>
      EndedOk(s.ring, s.st);
      EndKnown(s.ring, s.st);
      SkipDistinct(s.ring[1..], s.st - {s.ring[0]});
      State(Ended(s.ring, s.st).0, Ended(s.ring, s.st).1)
    case Insert(p) =>
      InsertKnown(s.ring, p, s.st[p := Ready]);
      State([s.ring[0], p] + s.ring[1..], s.st[p := Ready])
    case Change(st) => State(s.ring, st)
  }

  /** A run from `s` in which every state satisfies `good`. */
  ghost predicate Along(s: State, es: seq<Event>, good: State -> bool)
    requires Ok(s)
    decreases es
  {
    good(s) && (es != [] ==> Legal(s, es[0]) && Along(Apply(s, es[0]), es[1..], good))
  }

  function Switches(es: seq<Event>): nat {
    if es == [] then 0 else (if es[0].Switch? || es[0].End? then 1 else 0) + Switches(es[1..])
  }

  function Inserts(es: seq<Event>): nat {
    if es == [] then 0 else (if es[0].Insert? then 1 else 0) + Inserts(es[1..])
  }

  /** The distance from the current process. */
  function Distance(r: seq<Pid>, p: Pid): (d: nat)
    requires p in r
    ensures d < |r| && r[d] == p
  {
    if r[0] == p then 0 else 1 + Distance(r[1..], p)
  }

  lemma DistanceUnique(r: seq<Pid>, p: Pid, d: nat)
    requires Distinct(r) && d < |r| && r[d] == p
    ensures Distance(r, p) == d
  {
  }

  // Order

  /** The part of the ring that lies in `w`. */
  function Only(r: seq<Pid>, w: set<Pid>): (o: seq<Pid>)
    ensures forall p :: p in o <==> p in r && p in w
  {
    if r == [] then [] else (if r[0] in w then [r[0]] else []) + Only(r[1..], w)
  }

  lemma {:induction false} OnlyConcat(a: seq<Pid>, b: seq<Pid>, w: set<Pid>)
    ensures Only(a + b, w) == Only(a, w) + Only(b, w)
  {
    if a == [] {
      assert a + b == b;
    } else {
      assert (a + b)[0] == a[0] && (a + b)[1..] == a[1..] + b;
      OnlyConcat(a[1..], b, w);
    }
  }

  lemma {:induction false} UnmarkedDistinct(r: seq<Pid>, st: Statuses)
    requires Distinct(r)
    ensures Distinct(Unmarked(r, st))
  {
    if r != [] {
      assert r == [r[0]] + r[1..];
      UnmarkedDistinct(r[1..], st);
    }
  }

  lemma SkipDistinct(r: seq<Pid>, st: Statuses)
    requires Distinct(r) && SomeRunnable(r, st)
    ensures Distinct(Skip(r, st))
  {
    var k := First(r, st);
    UnmarkedDistinct(r[..k], st);
    assert r == r[..k] + r[k..];
    DistinctConcat(r[k..], Unmarked(r[..k], st));
  }

  lemma DistinctConcat(a: seq<Pid>, b: seq<Pid>)
    requires Distinct(a) && Distinct(b) && forall p :: p in a ==> p !in b
    ensures Distinct(a + b)
  {
    forall i, j | 0 <= i < |a| && 0 <= j < |b|
      ensures a[i] != b[j]
    {
      assert a[i] in a;
    }
  }

  // Bounded waiting

  lemma SkipPlace(r: seq<Pid>, st: Statuses, d: nat)
    requires d < |r| && Runnable(st, r[d]) && SomeRunnable(r, st)
    ensures First(r, st) <= d && d - First(r, st) < |Skip(r, st)| && Skip(r, st)[d - First(r, st)] == r[d]
  {
  }

  /** A runnable process keeps its place behind the first runnable one. */
  lemma SkipDistance(r: seq<Pid>, st: Statuses, p: Pid)
    requires Distinct(r) && p in r && Runnable(st, p) && SomeRunnable(r, st)
    ensures p in Skip(r, st) && Distance(Skip(r, st), p) == Distance(r, p) - First(r, st)
  {
    var d := Distance(r, p);
    SkipDistinct(r, st);
    SkipPlace(r, st, d);
    DistanceUnique(Skip(r, st), p, d - First(r, st));
  }

  lemma SwitchDistance(s: State, p: Pid)
    requires Ok(s) && p in s.ring && s.ring[0] != p && Runnable(s.st, p)
    ensures p in Apply(s, Switch).ring && Distance(Apply(s, Switch).ring, p) < Distance(s.ring, p)
  {
    var r, d := s.ring, Distance(s.ring, p);
    var r' := r[1..] + [r[0]];
    RotateDistinct(r);
    RotateKnown(r, s.st);
    KnownRunnable(r', s.st);
    assert r'[d - 1] == p;
    DistanceUnique(r', p, d - 1);
    SkipDistance(r', s.st, p);
  }

  lemma EndDistance(s: State, p: Pid)
    requires Ok(s) && s.ring[0] != INIT && p in s.ring && s.ring[0] != p && Runnable(s.st, p)
    ensures p in Apply(s, End).ring && Distance(Apply(s, End).ring, p) < Distance(s.ring, p)
  {
    var r, st, d := s.ring[1..], s.st - {s.ring[0]}, Distance(s.ring, p);
    EndKnown(s.ring, s.st);
    KnownRunnable(r, st);
    assert r[d - 1] == p;
    DistanceUnique(r, p, d - 1);
    SkipDistance(r, st, p);
  }

  lemma InsertDistance(s: State, q: Pid, p: Pid)
    requires Ok(s) && q !in s.st && p in s.ring && s.ring[0] != p
    ensures p in Apply(s, Insert(q)).ring && Distance(Apply(s, Insert(q)).ring, p) == Distance(s.ring, p) + 1
  {
  }

  ghost function Waits(p: Pid): State -> bool {
    (s: State) => p in s.ring && s.ring[0] != p && Runnable(s.st, p)
  }

  /** A process that stays runnable and is still not current after a run has seen fewer
      switches than its distance at the start plus the processes inserted meanwhile. */
  lemma {:induction false} BoundedWaiting(s: State, es: seq<Event>, p: Pid)
    requires Ok(s) && Along(s, es, Waits(p))
    ensures Switches(es) < Distance(s.ring, p) + Inserts(es)
    decreases es
  {
    if es != [] {
      match es[0] {
      case Switch => SwitchDistance(s, p);
      case End => EndDistance(s, p);
      case Insert(q) => InsertDistance(s, q, p);
      case Change(_) =>
      }
      BoundedWaiting(Apply(s, es[0]), es[1..], p);
    }
  }

  // Round robin

  ghost function Awake(w: set<Pid>): State -> bool {
    (s: State) => forall p :: p in w ==> p in s.ring && Runnable(s.st, p)
  }

  /** Which of `w` the switches of a run made current, in the order of the switches. */
  ghost function Turns(s: State, es: seq<Event>, w: set<Pid>): seq<Pid>
    requires Ok(s) && Along(s, es, Awake(w))
    decreases es
  {
    if es == [] then [] else
      var s' := Apply(s, es[0]);
      (if (es[0].Switch? || es[0].End?) && s'.ring[0] in w then [s'.ring[0]] else [])
      + Turns(s', es[1..], w)
  }

  function Rotated(o: seq<Pid>): seq<Pid> {
    if o == [] then o else o[1..] + [o[0]]
  }

  /** The members of `w` in the order in which their next turns come. */
  function Upcoming(r: seq<Pid>, w: set<Pid>): seq<Pid>
    requires r != []
  {
    if r[0] in w then Rotated(Only(r, w)) else Only(r, w)
  }

  lemma {:induction false} OnlyDistinct(r: seq<Pid>, w: set<Pid>)
    requires Distinct(r)
    ensures Distinct(Only(r, w))
  {
    if r != [] {
      assert r == [r[0]] + r[1..];
      OnlyDistinct(r[1..], w);
    }
  }

  lemma {:induction false} OnlyNone(r: seq<Pid>, w: set<Pid>)
    requires forall p :: p in r ==> p !in w
    ensures Only(r, w) == []
  {
    if r != [] {
      OnlyNone(r[1..], w);
    }
  }

  /** Skipping does not touch the runnable ones. */
  lemma SkipOnly(r: seq<Pid>, st: Statuses, w: set<Pid>)
    requires SomeRunnable(r, st) && forall p :: p in w ==> Runnable(st, p)
    ensures Only(Skip(r, st), w) == Only(r, w)
  {
    var k := First(r, st);
    assert r == r[..k] + r[k..];
    OnlyConcat(r[..k], r[k..], w);
    OnlyConcat(r[k..], Unmarked(r[..k], st), w);
    OnlyNone(r[..k], w);
    OnlyNone(Unmarked(r[..k], st), w);
  }

  lemma RotateOnly(r: seq<Pid>, w: set<Pid>)
    requires r != []
    ensures Only(r[1..] + [r[0]], w) == Upcoming(r, w)
  {
    OnlyConcat(r[1..], [r[0]], w);
    assert [r[0]][1..] == [];
  }

  lemma SwitchOrder(s: State, w: set<Pid>)
    requires Ok(s) && Awake(w)(s)
    ensures Only(Apply(s, Switch).ring, w) == Upcoming(s.ring, w)
  {
    var r := s.ring[1..] + [s.ring[0]];
    RotateKnown(s.ring, s.st);
    KnownRunnable(r, s.st);
    RotateOnly(s.ring, w);
    SkipOnly(r, s.st, w);
  }

  lemma EndOrder(s: State, w: set<Pid>)
    requires Ok(s) && s.ring[0] != INIT && Awake(w)(s) && Awake(w)(Apply(s, End))
    ensures Only(Apply(s, End).ring, w) == Upcoming(s.ring, w)
  {
    var r, st := s.ring[1..], s.st - {s.ring[0]};
    EndKnown(s.ring, s.st);
    EndedOk(s.ring, s.st);
    KnownRunnable(r, st);
    assert s.ring[0] !in w;
    SkipOnly(r, st, w);
  }

  lemma InsertOrder(s: State, q: Pid, w: set<Pid>)
    requires Ok(s) && q !in s.st && Awake(w)(s)
    ensures Upcoming(Apply(s, Insert(q)).ring, w) == Upcoming(s.ring, w)
  {
    var rest := s.ring[1..];
    assert Apply(s, Insert(q)).ring[1..] == [q] + rest && ([q] + rest)[1..] == rest;
    assert q !in w;
    assert Only([q] + rest, w) == [] + Only(rest, w);
  }

  /** One event: a switch brings the next of `w` to the front of `Only`, everything else
      leaves the order alone. */
  lemma StepOrder(s: State, e: Event, w: set<Pid>)
    requires Ok(s) && Legal(s, e) && Awake(w)(s) && Awake(w)(Apply(s, e))
    ensures var r' := Apply(s, e).ring;
      if e.Switch? || e.End? then Only(r', w) == Upcoming(s.ring, w) else Upcoming(r', w) == Upcoming(s.ring, w)
  {
    match e
    case Switch => SwitchOrder(s, w);
    case End => EndOrder(s, w);
    case Insert(q) => InsertOrder(s, q, w);
    case Change(_) =>
  }

  lemma UpcomingAll(r: seq<Pid>, w: set<Pid>)
    requires r != [] && Distinct(r) && forall p :: p in w ==> p in r
    ensures Distinct(Upcoming(r, w)) && forall p :: p in Upcoming(r, w) <==> p in w
  {
    var o := Only(r, w);
    OnlyDistinct(r, w);
    if r[0] in w {
      assert o == [o[0]] + o[1..];
    }
  }

  /** The turns follow `o` and then repeat. */
  ghost predicate Cyclic(turns: seq<Pid>, o: seq<Pid>) {
    && (turns != [] ==> o != [])
    && (forall i :: 0 <= i < |turns| && i < |o| ==> turns[i] == o[i])
    && (forall i, j :: 0 <= i < j < |turns| && j == i + |o| ==> turns[j] == turns[i])
  }

  lemma CyclicNext(turns: seq<Pid>, o: seq<Pid>)
    requires o != [] && Cyclic(turns, Rotated(o))
    ensures Cyclic([o[0]] + turns, o)
  {
  }

  /** Strict round robin: the members of any set of processes that stay runnable take their
      turns one after the other in ring order, over and over, whatever else is blocked,
      woken, killed, inserted or ends meanwhile. */
  lemma {:induction false} RoundRobin(s: State, es: seq<Event>, w: set<Pid>)
    requires Ok(s) && Along(s, es, Awake(w))
    ensures var o := Upcoming(s.ring, w);
      && Distinct(o) && (forall p :: p in o <==> p in w)
      && Cyclic(Turns(s, es, w), o)
    decreases es
  {
    UpcomingAll(s.ring, w);
    var o := Upcoming(s.ring, w);
    if es != [] {
      var s' := Apply(s, es[0]);
      StepOrder(s, es[0], w);
      RoundRobin(s', es[1..], w);
      if (es[0].Switch? || es[0].End?) && s'.ring[0] in w {
        CyclicNext(Turns(s', es[1..], w), o);
      }
    }
  }
}
