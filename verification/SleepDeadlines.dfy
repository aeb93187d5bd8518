/** The list of remaining ticks (timer.c) means a set of absolute deadlines, and
    every sleeper is woken on its own tick, whoever else goes to sleep meanwhile. */
module SleepDeadlines {
  import opened Sync
  import opened Timer

  datatype Deadline = Deadline(p: Pid, at: nat)

  function Deadlines(l: seq<Sleeper>, now: nat): seq<Deadline> {
    if l == [] then [] else [Deadline(l[0].p, now + l[0].ticks)] + Deadlines(l[1..], now)
  }

  function After(d: seq<Deadline>, now: nat): seq<Deadline> {
    if d == [] then [] else (if d[0].at > now then [d[0]] else []) + After(d[1..], now)
  }

  function At(d: seq<Deadline>, now: nat): seq<Pid> {
    if d == [] then [] else (if d[0].at == now then [d[0].p] else []) + At(d[1..], now)
  }

  lemma Cons(x: Sleeper, l: seq<Sleeper>, d: Deadline, ds: seq<Deadline>, now: nat)
    ensures Deadlines([x] + l, now) == [Deadline(x.p, now + x.ticks)] + Deadlines(l, now)
    ensures After([d] + ds, now) == (if d.at > now then [d] else []) + After(ds, now)
    ensures At([d] + ds, now) == (if d.at == now then [d.p] else []) + At(ds, now)
  {
  }

  /** Main result: one tick moves the clock by one; it wakes exactly those whose
      deadline is the new time and keeps the rest, deadlines and order unchanged. */
  lemma {:induction false} TickRefinesClock(l: seq<Sleeper>, now: nat)
    requires Positive(l)
    ensures Deadlines(Remaining(l), now + 1) == After(Deadlines(l, now), now + 1)
    ensures Due(l) == At(Deadlines(l, now), now + 1)
    ensures Positive(Remaining(l))
  {
    if l != [] {
      var x, rest := l[0], l[1..];
      assert x.ticks >= 1 && Positive(rest);
      TickRefinesClock(rest, now);
      var aged := x.(ticks := x.ticks - 1);
      Cons(aged, Remaining(rest), Deadline(x.p, now + x.ticks), Deadlines(rest, now), now + 1);
      if x.ticks > 1 {
        assert Remaining(l) == [aged] + Remaining(rest);
      } else {
        assert Remaining(l) == Remaining(rest);
      }
    }
  }

  // ----- runs -----

  datatype Event = Tick | SleepBy(p: Pid, ticks: nat)

  function AfterEvent(l: seq<Sleeper>, e: Event): seq<Sleeper> {
    match e case Tick => Remaining(l) case SleepBy(p, k) => [Sleeper(p, k)] + l
  }

  /** Whom each tick of a run wakes. */
  function Log(l: seq<Sleeper>, es: seq<Event>): seq<seq<Pid>>
    decreases es
  {
    if es == [] then [] else (if es[0].Tick? then [Due(l)] else []) + Log(AfterEvent(l, es[0]), es[1..])
  }

  /** The ticks that `p` still has to wait, one for each of its entries. */
  function Waits(l: seq<Sleeper>, p: Pid): seq<nat> {
    if l == [] then [] else (if l[0].p == p then [l[0].ticks] else []) + Waits(l[1..], p)
  }

  lemma {:induction false} TickOfOne(l: seq<Sleeper>, p: Pid)
    requires |Waits(l, p)| <= 1
    ensures Waits(Remaining(l), p) == if Waits(l, p) != [] && Waits(l, p)[0] > 1 then [Waits(l, p)[0] - 1] else []
    ensures p in Due(l) <==> Waits(l, p) != [] && Waits(l, p)[0] <= 1
  {
    if l != [] {
      TickOfOne(l[1..], p);
      if l[0].ticks > 1 {
        assert (Aged(l[0]) + Remaining(l[1..]))[1..] == Remaining(l[1..]);
      } else {
        assert [] + Remaining(l[1..]) == Remaining(l[1..]);
      }
    }
  }

  ghost predicate DoesNotSleepAgain(es: seq<Event>, p: Pid) {
    forall k :: 0 <= k < |es| && es[k].SleepBy? ==> es[k].p != p
  }

  /** Main result: a process that goes to sleep for `k` ticks is woken by the k-th
      later tick and by no other, in every run in which it does not sleep again. */
  lemma {:induction false} WokenExactlyOnTime(l: seq<Sleeper>, es: seq<Event>, p: Pid)
    requires |Waits(l, p)| <= 1 && (Waits(l, p) != [] ==> Waits(l, p)[0] >= 1) && DoesNotSleepAgain(es, p)
    ensures forall j :: 0 <= j < |Log(l, es)| ==> (p in Log(l, es)[j] <==> Waits(l, p) == [j + 1])
    decreases es
  {
    if es != [] {
      var l' := AfterEvent(l, es[0]);
      if es[0].Tick? {
        TickOfOne(l, p);
      } else {
        assert l'[1..] == l && Waits(l', p) == [] + Waits(l, p);
      }
      WokenExactlyOnTime(l', es[1..], p);
      var log, log' := Log(l, es), Log(l', es[1..]);
      if es[0].Tick? {
        assert log == [Due(l)] + log';
        forall j | 0 <= j < |log|
          ensures p in log[j] <==> Waits(l, p) == [j + 1]
        {
          if j > 0 { assert log[j] == log'[j - 1]; }
        }
      } else {
        assert log == [] + log' == log';
      }
    }
  }

  lemma SleeperIsWoken(l: seq<Sleeper>, p: Pid, k: nat, es: seq<Event>)
    requires Waits(l, p) == [] && k >= 1 && DoesNotSleepAgain(es, p)
    ensures var log := Log(l, [SleepBy(p, k)] + es);
      forall j :: 0 <= j < |log| ==> (p in log[j] <==> j == k - 1)
  {
    var l' := [Sleeper(p, k)] + l;
    assert l'[1..] == l && Waits(l', p) == [k] + [];
    WokenExactlyOnTime(l', es, p);
  }
}
