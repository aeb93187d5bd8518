/** The bounded buffer of producerConsumer2.c: a producer, a consumer and the main process,
    which pauses both by holding their mutex, as interleaved atomic steps. */
module BoundedBuffer {
  import opened Sequences
  import opened Sync

  const PROD: Pid := 0
  const CONS: Pid := 1
  const MAIN: Pid := 2
  /** How many ints the page has that malloc hands out, whatever size it is asked for. */
  const PAGE_INTS := 1024

  /** Where a process stands. For the main process `Begin` is before a pause and `Release`
      is while it pauses. */
  datatype Pc =
    | Begin      // before mutex_lock
    | Queued     // blocked in mutex_lock
    | Test       // before the test of the wait loop, with the mutex
    | Act        // before buffer[index++] = product or product = buffer[--index]
    | Wake       // before cond_signal
    | Release    // before mutex_unlock
    | Asleep     // blocked in cond_wait
    | Woken      // before the mutex_lock at the end of cond_wait

  datatype Event = Put(item: int) | Take(item: int)

  /** `buffer` is the page behind the pointer, `size` is buffer_size. */
  datatype State = State(
    m: Mutex, cond: seq<Pid>, buffer: seq<int>, size: nat, index: int, pc: seq<Pc>,
    history: seq<Event>)

  function Init(page: seq<int>, size: nat): State {
    State(Mutex(true, []), [], page, size, 0, [Begin, Begin, Begin], [])
  }

  /** The access that `p` makes to the buffer lies inside the page. */
  predicate InPage(s: State, p: Pid) {
    if p == PROD then 0 <= s.index < |s.buffer| else 0 < s.index <= |s.buffer|
  }

  /** A blocked process cannot move, and an access outside the page is not modelled. */
  predicate Enabled(s: State, p: Pid) {
    p < 3 && |s.pc| == 3 && s.pc[p] != Queued && s.pc[p] != Asleep && (s.pc[p] == Act ==> InPage(s, p))
  }

  /** What a process that has got the mutex goes on with. */
  function Entered(p: Pid): Pc {
    if p == MAIN then Release else Test
  }

  function SetPc(s: State, p: Pid, pc: Pc): State {
    if p < |s.pc| then s.(pc := s.pc[p := pc]) else s
  }

  /** mutex_lock */
  function Acquire(s: State, p: Pid): State {
    var (m, got) := Lock(s.m, p);
    SetPc(s.(m := m), p, if got then Entered(p) else Queued)
  }

  /** mutex_unlock: whoever is handed the mutex goes on. */
  function Unlocked(s: State): State {
    var (m, next) := Unlock(s.m, {});
    if next.Some? then SetPc(s.(m := m), next.value, Entered(next.value)) else s.(m := m)
  }

  /** cond_wait up to its yield */
  function Wait(s: State, p: Pid): State {
    var s := Unlocked(s);
    SetPc(s.(cond := s.cond + [p]), p, Asleep)
  }

  /** cond_signal */
  function Signalled(s: State): State {
    var (cond, woken) := Signal(s.cond);
    if woken.Some? then SetPc(s.(cond := cond), woken.value, Woken) else s
  }

  predicate MustWait(s: State, p: Pid) {
    (p == PROD && s.index == s.size) || (p == CONS && s.index == 0)
  }

  function DoPut(s: State, item: int): State
    requires InPage(s, PROD)
  {
    s.(buffer := s.buffer[s.index := item], index := s.index + 1, history := s.history + [Put(item)])
  }

  function DoTake(s: State): State
    requires InPage(s, CONS)
  {
    s.(index := s.index - 1, history := s.history + [Take(s.buffer[s.index - 1])])
  }

  /** One step of process `p`; `item` is what the producer makes up. */
  function Step(s: State, p: Pid, item: int): State
    requires Enabled(s, p)
  {
    match s.pc[p]
    case Begin | Woken => Acquire(s, p)
    case Test => if MustWait(s, p) then Wait(s, p) else SetPc(s, p, Act)
    case Act => SetPc(if p == PROD then DoPut(s, item) else DoTake(s), p, Wake)
    case Wake => SetPc(Signalled(s), p, Release)
    case Release => SetPc(Unlocked(s), p, Begin)
    case Queued | Asleep => s
  }

  /** The buffer as the stack that the events leave, if they obey the stack discipline. */
  function Replay(h: seq<Event>): Option<seq<int>> {
    if h == [] then Some([]) else
      var r := Replay(h[..|h| - 1]);
      if r.None? then None else
        match h[|h| - 1]
        case Put(x) => Some(r.value + [x])
        case Take(x) => if r.value != [] && r.value[|r.value| - 1] == x then Some(r.value[..|r.value| - 1]) else None
  }

  predicate Holds(pc: Pc) {
    pc.Test? || pc.Act? || pc.Wake? || pc.Release?
  }

  /** At most one process is past mutex_lock, one exactly while the mutex is locked. */
  predicate MutexOk(s: State) {
    && |s.pc| == 3
    && (s.m.unlocked ==> s.m.queue == [])
    && (s.m.unlocked <==> !Holds(s.pc[PROD]) && !Holds(s.pc[CONS]) && !Holds(s.pc[MAIN]))
    && !(Holds(s.pc[PROD]) && Holds(s.pc[CONS])) && !(Holds(s.pc[PROD]) && Holds(s.pc[MAIN]))
    && !(Holds(s.pc[CONS]) && Holds(s.pc[MAIN]))
    && (s.pc[MAIN] == Begin || s.pc[MAIN] == Queued || s.pc[MAIN] == Release)
  }

  /** A process is queued at the mutex exactly if it waits there, and once. */
  ghost predicate QueueOk(s: State) {
    && |s.pc| == 3
    && (forall p: Pid :: p in s.m.queue <==> p < 3 && s.pc[p] == Queued)
    && (forall i, j :: 0 <= i < j < |s.m.queue| ==> s.m.queue[i] != s.m.queue[j])
  }

  /** Only a process that must wait is asleep, and only until the other one, which has just
      acted, signals. So the two are never asleep together. */
  predicate CondOk(s: State) {
    && |s.pc| == 3
    && s.cond == (if s.pc[PROD] == Asleep then [PROD] else if s.pc[CONS] == Asleep then [CONS] else [])
    && !(s.pc[PROD] == Asleep && s.pc[CONS] == Asleep)
    && (s.pc[PROD] == Asleep ==> s.index == s.size || s.pc[CONS] == Wake)
    && (s.pc[CONS] == Asleep ==> s.index == 0 || s.pc[PROD] == Wake)
  }

  /** The index is in bounds, and the buffer holds what a stack would. */
  predicate BufferOk(s: State) {
    && |s.pc| == 3
    && 0 <= s.index <= s.size
    && (s.pc[PROD] == Act ==> s.index < s.size)
    && (s.pc[CONS] == Act ==> 0 < s.index)
    && s.index <= |s.buffer| && Replay(s.history) == Some(s.buffer[..s.index])
  }

  ghost predicate Inv(s: State) {
    1 <= s.size <= |s.buffer| && MutexOk(s) && QueueOk(s) && CondOk(s) && BufferOk(s)
  }

  lemma InitOk(page: seq<int>, size: nat)
    requires 1 <= size <= |page|
    ensures Inv(Init(page, size))
  {
  }

  lemma AcquireOk(s: State, p: Pid)
    requires Inv(s) && Enabled(s, p) && (s.pc[p] == Begin || s.pc[p] == Woken)
    ensures Inv(Acquire(s, p))
  {
  }

  /** What giving up the mutex does to the waiting processes. */
  lemma UnlockOk(s: State)
    requires |s.pc| == 3 && QueueOk(s)
    ensures var s' := Unlocked(s);
      && |s'.pc| == 3 && QueueOk(s') && s' == s.(m := s'.m, pc := s'.pc)
      && (s'.m.unlocked <==> s.m.queue == []) && (s'.m.unlocked ==> s'.m.queue == [])
      && (s.m.queue == [] ==> s'.pc == s.pc)
      && (s.m.queue != [] ==> s.m.queue[0] < 3 && s.pc[s.m.queue[0]] == Queued
                              && s'.pc == s.pc[s.m.queue[0] := Entered(s.m.queue[0])])
  {
    if s.m.queue != [] {
      assert s.m.queue[0] in s.m.queue;
      assert s.m.queue == [s.m.queue[0]] + s.m.queue[1..];
    }
  }

  lemma WaitOk(s: State, p: Pid)
    requires Inv(s) && Enabled(s, p) && s.pc[p] == Test && MustWait(s, p)
    ensures Inv(Wait(s, p))
  {
    UnlockOk(s);
  }

  lemma ActOk(s: State, p: Pid, item: int)
    requires Inv(s) && Enabled(s, p) && s.pc[p] == Act
    ensures Inv(Step(s, p, item))
  {
    var s' := Step(s, p, item);
    assert s'.history[..|s'.history| - 1] == s.history;
    if p == PROD {
      assert s'.buffer[..s'.index] == s.buffer[..s.index] + [item];
    } else {
      assert s'.buffer[..s'.index] == s.buffer[..s.index][..s.index - 1];
    }
  }

  lemma WakeOk(s: State, p: Pid, item: int)
    requires Inv(s) && Enabled(s, p) && s.pc[p] == Wake
    ensures Inv(Step(s, p, item))
  {
  }

  lemma ReleaseOk(s: State, p: Pid, item: int)
    requires Inv(s) && Enabled(s, p) && s.pc[p] == Release
    ensures Inv(Step(s, p, item))
  {
    UnlockOk(s);
  }

  lemma StepOk(s: State, p: Pid, item: int)
    requires Inv(s) && Enabled(s, p)
    ensures Inv(Step(s, p, item))
  {
    match s.pc[p]
    case Begin | Woken => AcquireOk(s, p);
    case Test => if MustWait(s, p) { WaitOk(s, p); }
    case Act => ActOk(s, p, item);
    case Wake => WakeOk(s, p, item);
    case Release => ReleaseOk(s, p, item);
    case Queued | Asleep =>
  }

  datatype Move = Move(p: Pid, item: int)

  /** Every mover is able to move. */
  ghost predicate CanRun(s: State, moves: seq<Move>)
    decreases moves
  {
    moves != [] ==> Enabled(s, moves[0].p) && CanRun(Step(s, moves[0].p, moves[0].item), moves[1..])
  }

  function Run(s: State, moves: seq<Move>): State
    requires CanRun(s, moves)
    decreases moves
  {
    if moves == [] then s else Run(Step(s, moves[0].p, moves[0].item), moves[1..])
  }

  lemma {:induction false} RunOk(s: State, moves: seq<Move>)
    requires Inv(s) && CanRun(s, moves)
    ensures Inv(Run(s, moves))
    decreases moves
  {
    if moves != [] {
      StepOk(s, moves[0].p, moves[0].item);
      RunOk(Step(s, moves[0].p, moves[0].item), moves[1..]);
    }
  }

  /** What the producer makes up in a run: the items of its moves at the access to the buffer. */
  ghost function Products(s: State, moves: seq<Move>): seq<int>
    requires CanRun(s, moves)
    decreases moves
  {
    if moves == [] then [] else
      (if moves[0].p == PROD && s.pc[PROD] == Act then [moves[0].item] else [])
      + Products(Step(s, moves[0].p, moves[0].item), moves[1..])
  }

  /** The items of the puts in a history. */
  function PutItems(h: seq<Event>): seq<int> {
    if h == [] then [] else PutItems(h[..|h| - 1]) + if h[|h| - 1].Put? then [h[|h| - 1].item] else []
  }

  lemma StepPuts(s: State, p: Pid, item: int)
    requires Enabled(s, p)
    ensures PutItems(Step(s, p, item).history) ==
              PutItems(s.history) + if p == PROD && s.pc[PROD] == Act then [item] else []
  {
    var h := Step(s, p, item).history;
    if s.pc[p] == Act {
      assert h[..|h| - 1] == s.history;
    }
  }

  /** The puts of a run are what the producer made up, in order. */
  lemma {:induction false} PutsAreProducts(s: State, moves: seq<Move>)
    requires CanRun(s, moves)
    ensures PutItems(Run(s, moves).history) == PutItems(s.history) + Products(s, moves)
    decreases moves
  {
    if moves != [] {
      var s' := Step(s, moves[0].p, moves[0].item);
      StepPuts(s, moves[0].p, moves[0].item);
      PutsAreProducts(s', moves[1..]);
      var now := if moves[0].p == PROD && s.pc[PROD] == Act then [moves[0].item] else [];
      AppendAssoc(PutItems(s.history), now, Products(s', moves[1..]));
    }
  }

  // What the invariant means

  predicate BothAsleep(s: State) {
    |s.pc| == 3 && s.pc[PROD] == Asleep && s.pc[CONS] == Asleep
  }

  /** In every state of every run, for every size from 1 to that of the page: the puts are what
      the producer made up, in order, the buffer is a stack of what was put and not yet taken, and
      the two never wait together. While the mutex is free, a waiting producer means a full buffer
      and a waiting consumer an empty one. */
  lemma BufferSafe(page: seq<int>, size: nat, moves: seq<Move>)
    requires 1 <= size <= |page| && CanRun(Init(page, size), moves)
    ensures var s := Run(Init(page, size), moves);
      && |s.pc| == 3 && 0 <= s.index <= size && |s.buffer| == |page|
      && PutItems(s.history) == Products(Init(page, size), moves)
      && Replay(s.history) == Some(s.buffer[..s.index])
      && !BothAsleep(s)
      && (s.m.unlocked && s.pc[PROD] == Asleep ==> s.index == size)
      && (s.m.unlocked && s.pc[CONS] == Asleep ==> s.index == 0)
  {
    InitOk(page, size);
    RunOk(Init(page, size), moves);
    SizeKept(Init(page, size), moves);
    PutsAreProducts(Init(page, size), moves);
  }

  lemma {:induction false} SizeKept(s: State, moves: seq<Move>)
    requires CanRun(s, moves)
    ensures Run(s, moves).size == s.size && |Run(s, moves).buffer| == |s.buffer|
    decreases moves
  {
    if moves != [] {
      SizeKept(Step(s, moves[0].p, moves[0].item), moves[1..]);
    }
  }

  /** No wakeup is lost: whoever has acted wakes the other one if it is asleep. */
  lemma NoLostWakeup(s: State, p: Pid, item: int)
    requires Inv(s) && p < 2 && s.pc[p] == Wake && s.pc[1 - p] == Asleep
    ensures Step(s, p, item).pc[1 - p] == Woken && Step(s, p, item).cond == []
  {
  }

  /** There is no deadlock: unless the main process pauses them, one of the two can move. */
  lemma SomebodyCanMove(s: State)
    requires Inv(s) && s.pc[MAIN] != Release
    ensures Enabled(s, PROD) || Enabled(s, CONS)
  {
  }

  function Takes(h: seq<Event>): multiset<int> {
    if h == [] then multiset{} else
      Takes(h[..|h| - 1]) + (if h[|h| - 1].Take? then multiset{h[|h| - 1].item} else multiset{})
  }

  lemma LastOff(r: seq<int>)
    requires r != []
    ensures multiset(r) == multiset(r[..|r| - 1]) + multiset{r[|r| - 1]}
  {
    assert r == r[..|r| - 1] + [r[|r| - 1]];
  }

  /** Conservation: what was put is what was taken and what is still there. */
  lemma {:induction false} NothingLost(h: seq<Event>)
    requires Replay(h).Some?
    ensures multiset(PutItems(h)) == Takes(h) + multiset(Replay(h).value)
  {
    if h != [] {
      var r := Replay(h[..|h| - 1]).value;
      NothingLost(h[..|h| - 1]);
      if h[|h| - 1].Take? { LastOff(r); }
    }
  }

  /** Main result: in every run what the producer made up is what was taken and what is in the buffer. */
  lemma ProductsConserved(page: seq<int>, size: nat, moves: seq<Move>)
    requires 1 <= size <= |page| && CanRun(Init(page, size), moves)
    ensures var s := Run(Init(page, size), moves);
      && 0 <= s.index <= |s.buffer|
      && multiset(Products(Init(page, size), moves)) == Takes(s.history) + multiset(s.buffer[..s.index])
  {
    BufferSafe(page, size, moves);
    NothingLost(Run(Init(page, size), moves).history);
  }

  // Other sizes

  ghost predicate Reaches(s: State, t: State) {
    exists moves :: CanRun(s, moves) && Run(s, moves) == t
  }

  lemma ReachesSelf(s: State)
    ensures Reaches(s, s)
  {
    assert CanRun(s, []) && Run(s, []) == s;
  }

  lemma ReachesMore(s: State, p: Pid, t: State)
    requires Enabled(s, p) && Reaches(Step(s, p, 0), t)
    ensures Reaches(s, t)
  {
    var moves :| CanRun(Step(s, p, 0), moves) && Run(Step(s, p, 0), moves) == t;
    var all := [Move(p, 0)] + moves;
    assert all[1..] == moves;
    assert CanRun(s, all) && Run(s, all) == t;
  }

  /** Nobody holds the mutex or waits. */
  predicate Resting(s: State) {
    s.m == Mutex(true, []) && s.cond == [] && s.pc == [Begin, Begin, Begin]
  }

  /** The producer at its access. */
  lemma AtAct(s: State) returns (t: State)
    requires Resting(s) && 0 <= s.index != s.size
    ensures t == s.(m := Mutex(false, []), pc := [Act, Begin, Begin])
    ensures Enabled(s, PROD) && Enabled(Step(s, PROD, 0), PROD) && Step(Step(s, PROD, 0), PROD, 0) == t
  {
    t := Step(Step(s, PROD, 0), PROD, 0);
  }

  /** The rest of its round, with room in the page. */
  lemma AfterAct(s: State) returns (t: State)
    requires s.m == Mutex(false, []) && s.cond == [] && s.pc == [Act, Begin, Begin] && 0 <= s.index < |s.buffer|
    ensures Resting(t) && t.index == s.index + 1 && |t.buffer| == |s.buffer| && t.size == s.size
    ensures forall u :: Reaches(t, u) ==> Reaches(s, u)
  {
    var s1 := Step(s, PROD, 0);
    var s2 := Step(s1, PROD, 0);
    t := Step(s2, PROD, 0);
    forall u | Reaches(t, u)
      ensures Reaches(s, u)
    {
      ReachesMore(s2, PROD, u);
      ReachesMore(s1, PROD, u);
      ReachesMore(s, PROD, u);
    }
  }

  /** The producer alone fills the page, and wants to write behind it. */
  lemma {:induction false} LeavesPage(s: State) returns (t: State)
    requires Resting(s) && 0 <= s.index <= |s.buffer| < s.size
    ensures Reaches(s, t) && |t.pc| == 3 && t.pc[PROD] == Act && !InPage(t, PROD)
    decreases |s.buffer| - s.index
  {
    t := AtAct(s);
    if s.index == |s.buffer| {
      ReachesSelf(t);
    } else {
      var s1 := AfterAct(t);
      var u := LeavesPage(s1);
      t := u;
    }
    ReachesMore(Step(s, PROD, 0), PROD, t);
    ReachesMore(s, PROD, t);
  }

  predicate StaysInPage(s: State) {
    forall p: Pid :: p < 2 && p < |s.pc| && s.pc[p] == Act ==> InPage(s, p)
  }

  /** Main result: of the sizes that the shell lets through, those up to the page's are exactly
      the ones for which no run accesses memory outside the page. */
  lemma PageSafeIff(page: seq<int>, size: nat)
    requires size >= 1
    ensures |page| == PAGE_INTS ==>
              ((forall t :: Reaches(Init(page, size), t) ==> StaysInPage(t)) <==> size <= PAGE_INTS)
  {
    var s := Init(page, size);
    if size <= |page| {
      forall t | Reaches(s, t)
        ensures StaysInPage(t)
      {
        var moves :| CanRun(s, moves) && Run(s, moves) == t;
        InitOk(page, size);
        RunOk(s, moves);
      }
    } else {
      var t := LeavesPage(s);
    }
  }

  /** A buffer of size 0, which the shell refuses, would put both to sleep. */
  lemma SizeZeroSleeps(page: seq<int>) returns (t: State)
    ensures Reaches(Init(page, 0), t) && BothAsleep(t)
  {
    var s0 := Init(page, 0);
    var s1 := Step(s0, PROD, 0);
    var s2 := Step(s1, PROD, 0);
    var s3 := Step(s2, CONS, 0);
    t := Step(s3, CONS, 0);
    ReachesSelf(t);
    ReachesMore(s3, CONS, t);
    ReachesMore(s2, CONS, t);
    ReachesMore(s1, PROD, t);
    ReachesMore(s0, PROD, t);
  }
}
