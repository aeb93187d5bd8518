/** The functions of philo.c as code over its global data: what each does between getting
    `critical_m` and giving it back is the uninterrupted run of the steps of Philosophers. */
module PhilosopherTable {
  import opened Sync
  import opened Philosophers

  /** The holder of `critical_m` goes on by itself, for at most `k` steps. */
  function RunIn(s: State, t: Pid, k: nat): State
    requires Shape(s) && t <= MAIN
    ensures Shape(RunIn(s, t, k))
    decreases k
  {
    if k == 0 || !s.pc[t].In? then s else
      StepShape(s, t);
      RunIn(Step(s, t, DoPause), t, k - 1)
  }

  lemma WakeShape(s: State, w: Option<Pid>)
    ensures |Wake(s, w).pc| == |s.pc| && Wake(s, w) == s.(pc := Wake(s, w).pc)
  {
  }

  lemma ExitShape(s: State, t: Pid, next: Pc)
    requires Shape(s) && t <= MAIN
    ensures Shape(Exit(s, t, next))
  {
  }

  lemma StepInShape(s: State, t: Pid, pt: Point)
    requires Shape(s) && t < MAX_PHILOSOPHERS
    ensures Shape(StepIn(s, t, pt))
  {
    match pt
    case DieLoop => ExitShape(s.(ph := s.ph[t := s.ph[t].(cond := s.ph[t].cond + [t])]), t, Asleep(DieAgain));
    case DieSignal => WakeShape(s.(leaver := Signal(s.leaver).0), Signal(s.leaver).1);
    case DieUnlock => ExitShape(s, t, Off);
    case KeepUnlock => ExitShape(s, t, Want(TakeForks));
    case TakeGrant => GrantShape(s, t);
    case TakeUnlock => ExitShape(s, t, OwnLock);
    case PutGrant(right) => GrantShape(s, Neighbour(t, s.count, right));
    case PutSignal(right) => GrantShape(s, Neighbour(t, s.count, right));
    case PutUnlock => ExitShape(s, t, Want(ShouldDie));
    case _ =>
  }

  lemma StepMainInShape(s: State, pt: Point)
    requires Shape(s)
    ensures Shape(StepMainIn(s, pt))
  {
  }

  lemma StepShape(s: State, t: Pid)
    requires Shape(s) && t <= MAIN && s.pc[t].In?
    ensures Shape(Step(s, t, DoPause))
  {
    if t == MAIN { StepMainInShape(s, s.pc[t].pt); } else { StepInShape(s, t, s.pc[t].pt); }
  }

  /** test */
  function AfterTest(s: State, i: nat): State
    requires Shape(s) && i < MAX_PHILOSOPHERS
  {
    if CanEat(s, i) then Grant(SetState(s, i, Eating), i) else s
  }

  /** What put_forks does for one neighbour. */
  function Served(s: State, j: nat): State
    requires Shape(s) && j < MAX_PHILOSOPHERS
  {
    SignalDie(AfterTest(s, j), j)
  }

  function TakeSection(s: State, t: Pid): State
    requires Shape(s) && t < MAX_PHILOSOPHERS
  {
    Exit(AfterTest(SetState(s, t, Hungry), t), t, OwnLock)
  }

  function PutSection(s: State, t: Pid): State
    requires Shape(s) && t < MAX_PHILOSOPHERS
  {
    var s1 := SetState(s, t, Thinking);
    Exit(Served(Served(s1, Left(t, s.count)), Right(t, s.count)), t, Want(ShouldDie))
  }

  /** The philosopher has left the ring and closes its mutex and condition. */
  function Closed(s: State, t: Pid): State
    requires Shape(s) && t < MAX_PHILOSOPHERS
  {
    s.(ph := s.ph[t := s.ph[t].(die := false, open := false)], count := if s.count > 0 then s.count - 1 else 0)
  }

  function DieTurn(s: State, t: Pid): State
    requires Shape(s) && t < MAX_PHILOSOPHERS
  {
    if s.ph[Left(t, s.count)].st == Eating && s.ph[Right(t, s.count)].st == Eating then
      Exit(s.(ph := s.ph[t := s.ph[t].(cond := s.ph[t].cond + [t])]), t, Asleep(DieAgain))
    else
      var (q, w) := Signal(s.leaver);
      Exit(Wake(Closed(s, t).(leaver := q), w), t, Off)
  }

  function DieSection(s: State, t: Pid): State
    requires Shape(s) && t < MAX_PHILOSOPHERS
  {
    if s.ph[t].die then DieTurn(SetState(s, t, Dying), t) else Exit(s, t, Want(TakeForks))
  }

  // Moving the program counter of the holder commutes with what it does

  lemma GotoTwice(s: State, t: Pid, p: Point, q: Point)
    requires Shape(s) && t <= MAIN
    ensures Goto(Goto(s, t, p), t, q) == Goto(s, t, q)
  {
  }

  lemma GotoWake(s: State, t: Pid, p: Point, w: Option<Pid>)
    requires Shape(s) && t <= MAIN
    ensures Wake(Goto(s, t, p), w) == Goto(Wake(s, w), t, p)
  {
  }

  lemma GotoGrant(s: State, t: Pid, p: Point, i: nat)
    requires Shape(s) && t <= MAIN && i < MAX_PHILOSOPHERS
    ensures Grant(Goto(s, t, p), i) == Goto(Grant(s, i), t, p)
  {
  }

  lemma GotoExit(s: State, t: Pid, p: Point, next: Pc)
    requires Shape(s) && t <= MAIN
    ensures Exit(Goto(s, t, p), t, next) == Exit(s, t, next)
  {
  }

  lemma GrantShape(s: State, i: nat)
    requires Shape(s) && i < MAX_PHILOSOPHERS
    ensures Shape(Grant(s, i)) && Grant(s, i).count == s.count
    ensures Shape(SignalDie(s, i)) && SignalDie(s, i).count == s.count
    ensures Shape(AfterTest(s, i)) && AfterTest(s, i).count == s.count
  {
  }

  // The sections are the uninterrupted runs

  lemma RunMore(s: State, t: Pid, k: nat)
    requires Shape(s) && t <= MAIN && k > 0 && s.pc[t].In?
    ensures Shape(Step(s, t, DoPause)) && RunIn(s, t, k) == RunIn(Step(s, t, DoPause), t, k - 1)
  {
    StepShape(s, t);
  }

  /** From In(TakeTest) in take_forks. */
  lemma TakeTestRuns(s: State, t: Pid)
    requires Shape(s) && t < MAX_PHILOSOPHERS
    ensures Shape(AfterTest(s, t))
    ensures RunIn(Goto(s, t, TakeTest), t, 7)
            == RunIn(Goto(AfterTest(s, t), t, TakeUnlock), t, if CanEat(s, t) then 5 else 6)
  {
    var a := Goto(s, t, TakeTest);
    GrantShape(s, t);
    RunMore(a, t, 7);
    if CanEat(s, t) {
      assert CanEat(a, t);
      var b := SetState(s, t, Eating);
      assert Step(a, t, DoPause) == Goto(b, t, TakeGrant);
      RunMore(Goto(b, t, TakeGrant), t, 6);
      GotoGrant(b, t, TakeGrant, t);
      GotoTwice(Grant(b, t), t, TakeGrant, TakeUnlock);
    } else {
      GotoTwice(s, t, TakeTest, TakeUnlock);
    }
  }

  /** After giving `critical_m` back the process no longer runs inside. */
  lemma ExitStops(s: State, t: Pid, p: Point, next: Pc, k: nat)
    requires Shape(s) && t < MAX_PHILOSOPHERS && k > 0 && !next.In? && !next.Queued?
    requires Step(Goto(s, t, p), t, DoPause) == Exit(Goto(s, t, p), t, next)
    ensures Shape(Exit(s, t, next)) && RunIn(Goto(s, t, p), t, k) == Exit(s, t, next)
  {
  }

  /** take_forks up to mutex_unlock(critical_m). */
  lemma TakeRefines(s: State, t: Pid)
    requires Shape(s) && t < MAX_PHILOSOPHERS && s.pc[t] == In(TakeSet)
    ensures RunIn(s, t, 8) == TakeSection(s, t)
  {
    var s1 := SetState(s, t, Hungry);
    RunMore(s, t, 8);
    assert Step(s, t, DoPause) == Goto(s1, t, TakeTest);
    TakeTestRuns(s1, t);
    TakeExits(AfterTest(s1, t), t, if CanEat(s1, t) then 5 else 6);
  }

  lemma TakeExits(s: State, t: Pid, k: nat)
    requires Shape(s) && t < MAX_PHILOSOPHERS && k > 0
    ensures RunIn(Goto(s, t, TakeUnlock), t, k) == Exit(s, t, OwnLock)
  {
  }

  // The steps of put_forks

  lemma StepTest(s: State, t: Pid, right: bool)
    requires Shape(s) && t < MAX_PHILOSOPHERS
    ensures var j := Neighbour(t, s.count, right);
      && j < MAX_PHILOSOPHERS
      && Step(Goto(s, t, PutTest(right)), t, DoPause)
         == if CanEat(s, j) then Goto(SetState(s, j, Eating), t, PutGrant(right)) else Goto(s, t, PutSignal(right))
  {
  }

  lemma StepGrant(s: State, t: Pid, right: bool)
    requires Shape(s) && t < MAX_PHILOSOPHERS
    ensures var j := Neighbour(t, s.count, right);
      && j < MAX_PHILOSOPHERS && Shape(Grant(s, j)) && Grant(s, j).count == s.count
      && Step(Goto(s, t, PutGrant(right)), t, DoPause) == Goto(Grant(s, j), t, PutSignal(right))
  {
  }

  /** Where put_forks goes on after one neighbour. */
  function AfterSignal(right: bool): Point {
    if right then PutUnlock else PutTest(true)
  }

  lemma StepSignal(s: State, t: Pid, right: bool)
    requires Shape(s) && t < MAX_PHILOSOPHERS
    ensures var j := Neighbour(t, s.count, right);
      && j < MAX_PHILOSOPHERS && Shape(SignalDie(s, j)) && SignalDie(s, j).count == s.count
      && Step(Goto(s, t, PutSignal(right)), t, DoPause) == Goto(SignalDie(s, j), t, AfterSignal(right))
  {
  }

  /** One half of put_forks. */
  lemma ServeRuns(s: State, t: Pid, right: bool, k: nat)
    requires Shape(s) && t < MAX_PHILOSOPHERS && k >= 3
    ensures var j := Neighbour(t, s.count, right);
      && j < MAX_PHILOSOPHERS && Shape(Served(s, j)) && Served(s, j).count == s.count
      && RunIn(Goto(s, t, PutTest(right)), t, k)
         == RunIn(Goto(Served(s, j), t, AfterSignal(right)), t, if CanEat(s, j) then k - 3 else k - 2)
  {
    var j := Neighbour(t, s.count, right);
    StepTest(s, t, right);
    RunMore(Goto(s, t, PutTest(right)), t, k);
    if CanEat(s, j) {
      var b := SetState(s, j, Eating);
      StepGrant(b, t, right);
      RunMore(Goto(b, t, PutGrant(right)), t, k - 1);
      SignalRuns(Grant(b, j), t, right, k - 2);
    } else {
      SignalRuns(s, t, right, k - 1);
    }
  }

  lemma SignalRuns(s: State, t: Pid, right: bool, k: nat)
    requires Shape(s) && t < MAX_PHILOSOPHERS && k >= 1
    ensures var j := Neighbour(t, s.count, right);
      && j < MAX_PHILOSOPHERS && Shape(SignalDie(s, j)) && SignalDie(s, j).count == s.count
      && RunIn(Goto(s, t, PutSignal(right)), t, k) == RunIn(Goto(SignalDie(s, j), t, AfterSignal(right)), t, k - 1)
  {
    StepSignal(s, t, right);
    RunMore(Goto(s, t, PutSignal(right)), t, k);
  }

  /** put_forks */
  lemma PutRefines(s: State, t: Pid)
    requires Shape(s) && t < MAX_PHILOSOPHERS && s.pc[t] == In(PutSet)
    ensures RunIn(s, t, 8) == PutSection(s, t)
  {
    var s1 := SetState(s, t, Thinking);
    RunMore(s, t, 8);
    assert Step(s, t, DoPause) == Goto(s1, t, PutTest(false));
    ServeRuns(s1, t, false, 7);
    var s2 := Served(s1, Left(t, s.count));
    var k := if CanEat(s1, Left(t, s.count)) then 4 else 5;
    PutRightRefines(s2, t, k);
  }

  lemma PutRightRefines(s: State, t: Pid, k: nat)
    requires Shape(s) && t < MAX_PHILOSOPHERS && k >= 4
    ensures Right(t, s.count) < MAX_PHILOSOPHERS && Shape(Served(s, Right(t, s.count)))
    ensures RunIn(Goto(s, t, PutTest(true)), t, k) == Exit(Served(s, Right(t, s.count)), t, Want(ShouldDie))
  {
    ServeRuns(s, t, true, k);
    var s' := Served(s, Right(t, s.count));
    ExitStops(s', t, PutUnlock, Want(ShouldDie), if CanEat(s, Right(t, s.count)) then k - 3 else k - 2);
  }

  // The steps of should_die

  lemma DieWaits(s: State, t: Pid, k: nat)
    requires Shape(s) && t < MAX_PHILOSOPHERS && k >= 1
    requires s.ph[Left(t, s.count)].st == Eating && s.ph[Right(t, s.count)].st == Eating
    ensures RunIn(Goto(s, t, DieLoop), t, k) == DieTurn(s, t)
  {
    var b := s.(ph := s.ph[t := s.ph[t].(cond := s.ph[t].cond + [t])]);
    RunMore(Goto(s, t, DieLoop), t, k);
    GotoExit(b, t, DieLoop, Asleep(DieAgain));
    assert Step(Goto(s, t, DieLoop), t, DoPause) == Exit(b, t, Asleep(DieAgain));
    assert !Exit(b, t, Asleep(DieAgain)).pc[t].In?;
  }

  lemma DieLeaves(s: State, t: Pid, k: nat)
    requires Shape(s) && t < MAX_PHILOSOPHERS && k >= 2
    requires !(s.ph[Left(t, s.count)].st == Eating && s.ph[Right(t, s.count)].st == Eating)
    ensures Shape(Closed(s, t)) && RunIn(Goto(s, t, DieLoop), t, k) == RunIn(Goto(Closed(s, t), t, DieSignal), t, k - 2)
  {
    var b := s.(ph := s.ph[t := s.ph[t].(die := false)], count := if s.count > 0 then s.count - 1 else 0);
    RunMore(Goto(s, t, DieLoop), t, k);
    GotoTwice(b, t, DieLoop, DieClose);
    assert Step(Goto(s, t, DieLoop), t, DoPause) == Goto(b, t, DieClose);
    RunMore(Goto(b, t, DieClose), t, k - 1);
    GotoTwice(Closed(s, t), t, DieClose, DieSignal);
    assert Step(Goto(b, t, DieClose), t, DoPause) == Goto(Closed(s, t), t, DieSignal);
  }

  lemma DieSignals(s: State, t: Pid, k: nat)
    requires Shape(s) && t < MAX_PHILOSOPHERS && k >= 2
    ensures var (q, w) := Signal(s.leaver);
      Shape(Wake(s.(leaver := q), w)) && RunIn(Goto(s, t, DieSignal), t, k) == Exit(Wake(s.(leaver := q), w), t, Off)
  {
    var (q, w) := Signal(s.leaver);
    var d := s.(leaver := q);
    WakeShape(d, w);
    RunMore(Goto(s, t, DieSignal), t, k);
    GotoWake(d, t, DieSignal, w);
    GotoTwice(Wake(d, w), t, DieSignal, DieUnlock);
    assert Step(Goto(s, t, DieSignal), t, DoPause) == Goto(Wake(d, w), t, DieUnlock);
    ExitStops(Wake(d, w), t, DieUnlock, Off, k - 1);
  }

  /** should_die */
  lemma DieRefines(s: State, t: Pid)
    requires Shape(s) && t < MAX_PHILOSOPHERS && (s.pc[t] == In(DieCheck) || s.pc[t] == In(DieLoop))
    ensures RunIn(s, t, 8) == if s.pc[t] == In(DieCheck) then DieSection(s, t) else DieTurn(s, t)
  {
    if s.pc[t] == In(DieLoop) {
      assert Goto(s, t, DieLoop) == s;
      DieTurnRefines(s, t, 8);
    } else {
      RunMore(s, t, 8);
      if s.ph[t].die {
        assert Step(s, t, DoPause) == Goto(SetState(s, t, Dying), t, DieLoop);
        DieTurnRefines(SetState(s, t, Dying), t, 7);
      } else {
        assert Step(s, t, DoPause) == Goto(s, t, KeepUnlock);
        ExitStops(s, t, KeepUnlock, Want(TakeForks), 7);
      }
    }
  }

  lemma DieTurnRefines(s: State, t: Pid, k: nat)
    requires Shape(s) && t < MAX_PHILOSOPHERS && k >= 4
    ensures RunIn(Goto(s, t, DieLoop), t, k) == DieTurn(s, t)
  {
    if s.ph[Left(t, s.count)].st == Eating && s.ph[Right(t, s.count)].st == Eating {
      DieWaits(s, t, k);
    } else {
      DieLeaves(s, t, k);
      DieSignals(Closed(s, t), t, k - 2);
    }
  }

  // add_philosopher and remove_philosopher

  /** A new philosopher with index `i` behind all others. */
  function Seated(s: State, i: nat): State
    requires Shape(s) && i < MAX_PHILOSOPHERS
  {
    s.(ph := s.ph[i := Phil(Thinking, false, true, Mutex(false, []), [])], count := i + 1,
         pc := s.pc[i := Want(ShouldDie)])
  }

  function AddSection(s: State): State
    requires Shape(s)
  {
    if s.count < MAX_PHILOSOPHERS then Exit(Seated(s, s.count), MAIN, Idle) else Exit(s, MAIN, Idle)
  }

  function RemoveTurn(s: State, c: nat): State
    requires Shape(s)
  {
    if s.count == c then Exit(s.(leaver := s.leaver + [MAIN]), MAIN, Asleep(RemoveAgain(c))) else Exit(s, MAIN, Idle)
  }

  function RemoveSection(s: State): State
    requires Shape(s)
  {
    if s.count > 0 then RemoveTurn(s.(ph := s.ph[s.count - 1 := s.ph[s.count - 1].(die := true)]), s.count)
    else Exit(s, MAIN, Idle)
  }

  lemma MainExits(s: State, k: nat)
    requires Shape(s) && k > 0
    ensures RunIn(Goto(s, MAIN, MainUnlock), MAIN, k) == Exit(s, MAIN, Idle)
  {
    RunMore(Goto(s, MAIN, MainUnlock), MAIN, k);
    GotoExit(s, MAIN, MainUnlock, Idle);
    ExitShape(s, MAIN, Idle);
    assert !Exit(s, MAIN, Idle).pc[MAIN].In?;
  }

  lemma AddSteps(s: State, k: nat)
    requires Shape(s) && s.count < MAX_PHILOSOPHERS && k >= 5
    ensures RunIn(Goto(s, MAIN, AddCheck), MAIN, k) == RunIn(Goto(Seated(s, s.count), MAIN, MainUnlock), MAIN, k - 4)
  {
    var i := s.count;
    var a := s.(ph := s.ph[i := s.ph[i].(die := false)], count := i + 1);
    var b := a.(ph := a.ph[i := a.ph[i].(open := true, sem := Mutex(true, []), cond := [])]);
    var c := b.(ph := b.ph[i := b.ph[i].(sem := Mutex(false, []), st := Thinking)]);
    var d := c.(pc := c.pc[i := Want(ShouldDie)]);
    RunMore(Goto(s, MAIN, AddCheck), MAIN, k);
    assert Step(Goto(s, MAIN, AddCheck), MAIN, DoPause) == Goto(a, MAIN, AddOpen);
    RunMore(Goto(a, MAIN, AddOpen), MAIN, k - 1);
    assert Step(Goto(a, MAIN, AddOpen), MAIN, DoPause) == Goto(b, MAIN, AddLock);
    RunMore(Goto(b, MAIN, AddLock), MAIN, k - 2);
    assert Step(Goto(b, MAIN, AddLock), MAIN, DoPause) == Goto(c, MAIN, AddExec);
    RunMore(Goto(c, MAIN, AddExec), MAIN, k - 3);
    assert Step(Goto(c, MAIN, AddExec), MAIN, DoPause) == Goto(d, MAIN, MainUnlock);
    assert d == Seated(s, i);
  }

  /** add_philosopher */
  lemma AddRefines(s: State)
    requires Shape(s) && s.pc[MAIN] == In(AddCheck)
    ensures RunIn(s, MAIN, 8) == AddSection(s)
  {
    assert s == Goto(s, MAIN, AddCheck);
    if s.count < MAX_PHILOSOPHERS {
      AddSteps(s, 8);
      MainExits(Seated(s, s.count), 4);
    } else {
      RunMore(s, MAIN, 8);
      MainExits(s, 7);
    }
  }

  lemma RemoveTurnRefines(s: State, c: nat, k: nat)
    requires Shape(s) && k >= 2
    ensures RunIn(Goto(s, MAIN, RemoveLoop(c)), MAIN, k) == RemoveTurn(s, c)
  {
    RunMore(Goto(s, MAIN, RemoveLoop(c)), MAIN, k);
    if s.count == c {
      var b := s.(leaver := s.leaver + [MAIN]);
      GotoExit(b, MAIN, RemoveLoop(c), Asleep(RemoveAgain(c)));
      assert Step(Goto(s, MAIN, RemoveLoop(c)), MAIN, DoPause) == Exit(b, MAIN, Asleep(RemoveAgain(c)));
    } else {
      GotoTwice(s, MAIN, RemoveLoop(c), MainUnlock);
      MainExits(s, k - 1);
    }
  }

  lemma RemoveMarkRefines(s: State)
    requires Shape(s) && s.pc[MAIN] == In(RemoveMark)
    ensures RunIn(s, MAIN, 8) == RemoveSection(s)
  {
    RunMore(s, MAIN, 8);
    if s.count > 0 {
      var b := s.(ph := s.ph[s.count - 1 := s.ph[s.count - 1].(die := true)]);
      assert Step(s, MAIN, DoPause) == Goto(b, MAIN, RemoveLoop(s.count));
      RemoveTurnRefines(b, s.count, 7);
    } else {
      assert Step(s, MAIN, DoPause) == Goto(s, MAIN, MainUnlock);
      MainExits(s, 7);
    }
  }

  /** remove_philosopher */
  lemma RemoveRefines(s: State)
    requires Shape(s) && (s.pc[MAIN] == In(RemoveMark) || (s.pc[MAIN].In? && s.pc[MAIN].pt.RemoveLoop?))
    ensures RunIn(s, MAIN, 8)
            == if s.pc[MAIN] == In(RemoveMark) then RemoveSection(s) else RemoveTurn(s, s.pc[MAIN].pt.cnt)
  {
    if s.pc[MAIN] == In(RemoveMark) {
      RemoveMarkRefines(s);
    } else {
      var c := s.pc[MAIN].pt.cnt;
      assert s == Goto(s, MAIN, RemoveLoop(c));
      RemoveTurnRefines(s, c, 8);
    }
  }

  // The code

  /** The global data of philo.c, with the kernel objects and the processes behind it. */
  class Table {
    var count: nat
    const ph: array<Phil>
    var crit: Mutex
    var holder: Option<Pid>
    var leaver: seq<Pid>
    const pc: array<Pc>

    predicate Valid()
      reads this
    {
      ph.Length == MAX_PHILOSOPHERS && pc.Length == MAX_PHILOSOPHERS + 1 && count <= MAX_PHILOSOPHERS
    }

    function Value(): (s: State)
      requires Valid()
      reads this, ph, pc
      ensures Shape(s)
    {
      State(count, ph[..], crit, holder, leaver, pc[..])
    }

    /** A kernel call unblocks a process. */
    method Unblock(w: Option<Pid>)
      requires Valid()
      modifies pc
      ensures Value() == Wake(old(Value()), w)
    {
      if w.Some? && w.value < pc.Length {
        pc[w.value] := Resume(pc[w.value]);
      }
    }

    /** mutex_unlock(critical_m) by `t`, which goes on at `next`. */
    method UnlockCritical(t: Pid, next: Pc)
      requires Valid() && t <= MAIN
      modifies this`crit, this`holder, pc
      ensures Value() == Exit(old(Value()), t, next)
    {
      var (m, w) := Unlock(crit, {});
      crit, holder := m, w;
      pc[t] := next;
      Unblock(w);
    }

    /** setState */
    method SetPhilosopher(i: nat, st: PState)
      requires Valid() && i < MAX_PHILOSOPHERS
      modifies ph
      ensures Value() == SetState(old(Value()), i, st)
    {
      ph[i] := ph[i].(st := st);
    }

    /** mutex_unlock(philo_array[i].mut) */
    method UnlockOwn(i: nat)
      requires Valid() && i < MAX_PHILOSOPHERS
      modifies ph, pc
      ensures Value() == Grant(old(Value()), i)
    {
      if ph[i].open {
        var (m, w) := Unlock(ph[i].sem, {});
        ph[i] := ph[i].(sem := m);
        Unblock(w);
      }
    }

    /** cond_signal(philo_array[i].cond_die) */
    method SignalOwn(i: nat)
      requires Valid() && i < MAX_PHILOSOPHERS
      modifies ph, pc
      ensures Value() == SignalDie(old(Value()), i)
    {
      if ph[i].open {
        var (q, w) := Signal(ph[i].cond);
        ph[i] := ph[i].(cond := q);
        Unblock(w);
      }
    }

    /** test */
    method Test(i: nat)
      requires Valid() && i < MAX_PHILOSOPHERS
      modifies ph, pc
      ensures Value() == AfterTest(old(Value()), i)
    {
      if ph[i].st == Hungry && ph[Left(i, count)].st != Eating && ph[Right(i, count)].st != Eating {
        SetPhilosopher(i, Eating);
        UnlockOwn(i);
      }
    }

    /** take_forks, with `critical_m`. */
    method TakeForks(t: Pid)
      requires Valid() && t < MAX_PHILOSOPHERS && pc[t] == In(TakeSet)
      modifies this`crit, this`holder, ph, pc
      ensures Value() == RunIn(old(Value()), t, 8)
    {
      TakeRefines(Value(), t);
      SetPhilosopher(t, Hungry);
      Test(t);
      UnlockCritical(t, OwnLock);
    }

    /** put_forks, with `critical_m`. */
    method PutForks(t: Pid)
      requires Valid() && t < MAX_PHILOSOPHERS && pc[t] == In(PutSet)
      modifies this`crit, this`holder, ph, pc
      ensures Value() == RunIn(old(Value()), t, 8)
    {
      PutRefines(Value(), t);
      SetPhilosopher(t, Thinking);
      Test(Left(t, count));
      SignalOwn(Left(t, count));
      Test(Right(t, count));
      SignalOwn(Right(t, count));
      UnlockCritical(t, Want(Section.ShouldDie));
    }

    /** cond_wait(pd->cond_die, critical_m) up to its yield. */
    method WaitOwn(t: Pid)
      requires Valid() && t < MAX_PHILOSOPHERS
      modifies this`crit, this`holder, ph, pc
      ensures var s := old(Value());
        Value() == Exit(s.(ph := s.ph[t := s.ph[t].(cond := s.ph[t].cond + [t])]), t, Asleep(DieAgain))
    {
      ph[t] := ph[t].(cond := ph[t].cond + [t]);
      UnlockCritical(t, Asleep(DieAgain));
    }

    /** The end of should_die for a philosopher that may leave. */
    method Leave(t: Pid)
      requires Valid() && t < MAX_PHILOSOPHERS
      modifies this`count, this`crit, this`holder, this`leaver, ph, pc
      ensures Valid()
      ensures var s := Closed(old(Value()), t); var (q, w) := Signal(s.leaver);
        Value() == Exit(Wake(s.(leaver := q), w), t, Off)
    {
      ph[t] := ph[t].(die := false);
      count := if count > 0 then count - 1 else 0;
      ph[t] := ph[t].(open := false);   // mutex_close, cond_close
      var (q, w) := Signal(leaver);
      leaver := q;
      Unblock(w);
      UnlockCritical(t, Off);
    }

    /** should_die, with `critical_m`, from its start or from the test of its wait loop. */
    method ShouldDie(t: Pid)
      requires Valid() && t < MAX_PHILOSOPHERS && (pc[t] == In(DieCheck) || pc[t] == In(DieLoop))
      modifies this`count, this`crit, this`holder, this`leaver, ph, pc
      ensures Valid() && Value() == RunIn(old(Value()), t, 8)
    {
      DieRefines(Value(), t);
      if pc[t] == In(DieCheck) {
        if !ph[t].die {
          UnlockCritical(t, Want(Section.TakeForks));
          return;
        }
        SetPhilosopher(t, Dying);
      }
      if ph[Left(t, count)].st == Eating && ph[Right(t, count)].st == Eating {
        WaitOwn(t);
      } else {
        Leave(t);
      }
    }

    /** The body of add_philosopher. */
    method Seat()
      requires Valid() && count < MAX_PHILOSOPHERS
      modifies this`count, ph, pc
      ensures Valid() && Value() == Seated(old(Value()), old(count))
    {
      var i := count;
      count := count + 1;
      var pd := ph[i].(die := false, open := true, sem := Mutex(true, []), cond := []);   // mutex_open, cond_open
      var (m, _) := Lock(pd.sem, MAIN);
      ph[i] := pd.(sem := m, st := Thinking);
      pc[i] := Want(Section.ShouldDie);   // execp
    }

    /** add_philosopher, with `critical_m`; the new mutex is locked at once. */
    method AddPhilosopher()
      requires Valid() && pc[MAIN] == In(AddCheck)
      modifies this`count, this`crit, this`holder, ph, pc
      ensures Valid() && Value() == RunIn(old(Value()), MAIN, 8)
    {
      AddRefines(Value());
      if count < MAX_PHILOSOPHERS {
        Seat();
      }
      UnlockCritical(MAIN, Idle);
    }

    /** remove_philosopher, with `critical_m`, from its start or from the test of its wait loop. */
    method RemovePhilosopher()
      requires Valid() && (pc[MAIN] == In(RemoveMark) || (pc[MAIN].In? && pc[MAIN].pt.RemoveLoop?))
      modifies this`crit, this`holder, this`leaver, ph, pc
      ensures Value() == RunIn(old(Value()), MAIN, 8)
    {
      RemoveRefines(Value());
      var c := count;
      if pc[MAIN] == In(RemoveMark) {
        if count == 0 {
          UnlockCritical(MAIN, Idle);
          return;
        }
        ph[count - 1] := ph[count - 1].(die := true);
      } else {
        c := pc[MAIN].pt.cnt;
      }
      if count == c {
        leaver := leaver + [MAIN];   // cond_wait
        UnlockCritical(MAIN, Asleep(RemoveAgain(c)));
      } else {
        UnlockCritical(MAIN, Idle);
      }
    }
  }
}
