/** The round-robin order of the scheduler (processManager.c) as a sequence that
    starts at the current process. */
module Ring {
  import opened Sync
  import opened Processes

  /** Neither blocked nor marked DELETE. */
  predicate Runnable(st: Statuses, p: Pid) {
    p in st && st[p] == Ready
  }

  predicate Marked(st: Statuses, p: Pid) {
    p in st && st[p] == Delete
  }

  predicate SomeRunnable(r: seq<Pid>, st: Statuses) {
    exists k :: 0 <= k < |r| && Runnable(st, r[k])
  }

  /** The place of the first runnable process. */
  function First(r: seq<Pid>, st: Statuses): (k: nat)
    requires SomeRunnable(r, st)
    ensures k < |r| && Runnable(st, r[k]) && forall j :: 0 <= j < k ==> !Runnable(st, r[j])
  {
    if Runnable(st, r[0]) then 0 else
    assert exists j :: 0 <= j < |r[1..]| && Runnable(st, r[1..][j]) by {
      var k :| 0 <= k < |r| && Runnable(st, r[k]);
      assert r[1..][k - 1] == r[k];
    }
    1 + First(r[1..], st)
  }

  /** Without the processes that are marked DELETE. */
  function Unmarked(r: seq<Pid>, st: Statuses): (u: seq<Pid>)
    ensures forall p :: p in u <==> p in r && !Marked(st, p)
  {
    if r == [] then [] else (if Marked(st, r[0]) then [] else [r[0]]) + Unmarked(r[1..], st)
  }

  /** set_next_current: whoever stands before the first runnable process goes to the
      end of the round, or out if it is marked DELETE. */
  function Skip(r: seq<Pid>, st: Statuses): seq<Pid>
    requires SomeRunnable(r, st)
  {
    r[First(r, st)..] + Unmarked(r[..First(r, st)], st)
  }

  /** The processes that set_next_current destroys. */
  function Dropped(r: seq<Pid>, st: Statuses): set<Pid> {
    set p | p in r && Marked(st, p)
  }

  lemma {:induction false} UnmarkedAppend(r: seq<Pid>, p: Pid, st: Statuses)
    ensures Unmarked(r + [p], st) == Unmarked(r, st) + (if Marked(st, p) then [] else [p])
  {
    if r == [] {
      assert [p][1..] == [];
    } else {
      assert (r + [p])[0] == r[0] && (r + [p])[1..] == r[1..] + [p];
      UnmarkedAppend(r[1..], p, st);
    }
  }
}
