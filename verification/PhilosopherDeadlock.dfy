/** Two runs of philo.c, each a sequence of whole calls of its functions: one after
    which an add leaves a HUNGRY philosopher without an EATING neighbour, and one that
    ends with no process able to go on. */
module PhilosopherDeadlock {
  import opened Sync
  import opened Philosophers
  import opened PhilosopherSafety
  import opened PhilosopherProgress
  import opened PhilosopherTable

  ghost predicate Reached(s: State) {
    exists b: seq<State> :: Run(b) && b[|b| - 1] == s
  }

  lemma ReachedOk(s: State)
    requires Reached(s)
    ensures Inv(s)
  {
    var b: seq<State> :| Run(b) && b[|b| - 1] == s;
    RunOk(b, |b| - 1);
  }

  lemma ReachStart()
    ensures Reached(Start())
  {
    var b := [Start()];
    assert Run(b) && b[|b| - 1] == Start();
  }

  lemma ReachStep(s: State, t: Pid, key: Command, s': State)
    requires Reached(s) && Shape(s) && t <= MAIN && s' == Step(s, t, key)
    ensures Reached(s')
  {
    var b: seq<State> :| Run(b) && b[|b| - 1] == s;
    var b' := b + [s'];
    forall k | 0 < k < |b'|
      ensures Next(b'[k - 1], b'[k])
    {
      if k < |b| { assert b'[k] == b[k] && b'[k - 1] == b[k - 1]; }
    }
    assert Run(b') && b'[|b'| - 1] == s';
  }

  lemma ReachOnce(s: State, t: Pid)
    requires Reached(s) && Shape(s) && t <= MAIN && s.pc[t].In?
    ensures Shape(Step(s, t, DoPause)) && Reached(Step(s, t, DoPause))
  {
    StepShape(s, t);
    ReachStep(s, t, DoPause, Step(s, t, DoPause));
  }

  lemma {:induction false} ReachRun(s: State, t: Pid, k: nat)
    requires Reached(s) && Shape(s) && t <= MAIN
    ensures Reached(RunIn(s, t, k))
    decreases k
  {
    if k > 0 && s.pc[t].In? {
      ReachOnce(s, t);
      ReachRun(Step(s, t, DoPause), t, k - 1);
    }
  }

  /** `critical_m` is free. */
  predicate Free(s: State) {
    Shape(s) && s.crit == Mutex(true, []) && s.holder == None
  }

  /** `t` has got `critical_m` for `sec`. */
  function Holding(s: State, t: Pid, sec: Section): State
    requires Shape(s) && t <= MAIN
  {
    s.(crit := Mutex(false, []), holder := Some(t), pc := s.pc[t := In(First(sec))])
  }

  lemma Enters(s: State, t: Pid, sec: Section)
    requires Reached(s) && Free(s) && t <= MAIN && s.pc[t] == Want(sec)
    ensures Shape(Holding(s, t, sec)) && Reached(RunIn(Holding(s, t, sec), t, 8))
  {
    ReachStep(s, t, DoPause, Holding(s, t, sec));
    ReachRun(Holding(s, t, sec), t, 8);
  }

  lemma MainEnters(s: State, key: Command)
    requires Reached(s) && Free(s) && s.pc[MAIN] == Idle
    ensures var h := Holding(s, MAIN, CommandSection(key));
      Shape(h) && Reached(h) && Reached(RunIn(h, MAIN, 8))
  {
    var s1 := s.(pc := s.pc[MAIN := Want(CommandSection(key))]);
    ReachStep(s, MAIN, key, s1);
    var h := Holding(s, MAIN, CommandSection(key));
    assert s1.pc[MAIN := In(First(CommandSection(key)))] == h.pc;
    ReachStep(s1, MAIN, key, h);
    ReachRun(h, MAIN, 8);
  }

  lemma Add(s: State)
    requires Reached(s) && Free(s) && s.pc[MAIN] == Idle && s.count < MAX_PHILOSOPHERS
    ensures Reached(Seated(s, s.count))
  {
    MainEnters(s, DoAdd);
    var h := Holding(s, MAIN, AddPhilosopher);
    AddRefines(h);
    assert h.pc[s.count := Want(ShouldDie)][MAIN := Idle] == Seated(s, s.count).pc;
    assert Exit(Seated(h, s.count), MAIN, Idle) == Seated(s, s.count);
  }

  /** should_die of a philosopher that is not marked. */
  lemma Stay(s: State, t: Pid)
    requires Reached(s) && Free(s) && t < MAX_PHILOSOPHERS && s.pc[t] == Want(ShouldDie) && !s.ph[t].die
    ensures Reached(s.(pc := s.pc[t := Want(TakeForks)]))
  {
    Enters(s, t, ShouldDie);
    var h := Holding(s, t, ShouldDie);
    DieRefines(h, t);
    assert h.pc[t := Want(TakeForks)] == s.pc[t := Want(TakeForks)];
  }

  /** A philosopher sits between others and may take its forks. */
  predicate Sits(s: State, t: Pid) {
    && Free(s) && t < s.count && s.count >= 2 && s.pc[t] == Want(TakeForks)
    && s.ph[t].open && s.ph[t].sem == Mutex(false, [])
  }

  /** take_forks of a philosopher between two that do not eat. */
  lemma Eat(s: State, t: Pid)
    requires Reached(s) && Sits(s, t) && !Eats(s, Left(t, s.count)) && !Eats(s, Right(t, s.count))
    ensures Reached(s.(ph := s.ph[t := s.ph[t].(st := Eating)], pc := s.pc[t := Want(PutForks)]))
  {
    Enters(s, t, TakeForks);
    var h := Holding(s, t, TakeForks);
    TakeRefines(h, t);
    var p := s.ph[t].(st := Eating);
    var s1 := s.(ph := s.ph[t := p.(sem := Mutex(true, []))], pc := s.pc[t := OwnLock]);
    assert h.ph[t := s.ph[t].(st := Hungry)][t := p][t := p.(sem := Mutex(true, []))] == s1.ph;
    assert h.pc[t := OwnLock] == s1.pc;
    assert TakeSection(h, t) == s1;
    var s2 := s.(ph := s.ph[t := p], pc := s.pc[t := Want(PutForks)]);
    assert s1.ph[t := p] == s2.ph && s1.pc[t := Want(PutForks)] == s2.pc;
    ReachStep(s1, t, DoPause, s2);
  }

  /** take_forks of a philosopher beside one that eats. */
  lemma Wait(s: State, t: Pid)
    requires Reached(s) && Sits(s, t) && (Eats(s, Left(t, s.count)) || Eats(s, Right(t, s.count)))
    ensures Reached(s.(ph := s.ph[t := s.ph[t].(st := Hungry, sem := Mutex(false, [t]))], pc := s.pc[t := OwnQueued]))
  {
    Enters(s, t, TakeForks);
    var h := Holding(s, t, TakeForks);
    TakeRefines(h, t);
    var p := s.ph[t].(st := Hungry);
    var s1 := s.(ph := s.ph[t := p], pc := s.pc[t := OwnLock]);
    assert Left(t, s.count) != t && Right(t, s.count) != t;
    assert h.pc[t := OwnLock] == s1.pc;
    assert TakeSection(h, t) == s1;
    var s2 := s.(ph := s.ph[t := p.(sem := Mutex(false, [t]))], pc := s.pc[t := OwnQueued]);
    assert p.sem.queue + [t] == [t];
    assert s1.ph[t := p.(sem := Mutex(false, [t]))] == s2.ph && s1.pc[t := OwnQueued] == s2.pc;
    ReachStep(s1, t, DoPause, s2);
  }

  /** put_forks between two philosophers that neither want to eat nor wait to die. */
  lemma Put(s: State, t: Pid)
    requires Reached(s) && Free(s) && t < s.count && s.count >= 2 && s.pc[t] == Want(PutForks)
    requires forall right: bool :: var p := s.ph[Neighbour(t, s.count, right)]; p.st != Hungry && p.cond == []
    ensures Reached(s.(ph := s.ph[t := s.ph[t].(st := Thinking)], pc := s.pc[t := Want(ShouldDie)]))
  {
    Enters(s, t, PutForks);
    var h := Holding(s, t, PutForks);
    PutRefines(h, t);
    var h1 := SetState(h, t, Thinking);
    ServesNobody(h1, Neighbour(t, s.count, false));
    ServesNobody(h1, Neighbour(t, s.count, true));
    assert h1.pc[t := Want(ShouldDie)] == s.pc[t := Want(ShouldDie)];
  }

  lemma ServesNobody(s: State, j: nat)
    requires Shape(s) && j < MAX_PHILOSOPHERS && s.ph[j].st != Hungry && s.ph[j].cond == []
    ensures Served(s, j) == s
  {
    assert s.ph[j := s.ph[j].(cond := [])] == s.ph;
  }

  /** remove_philosopher up to its wait. */
  function Marked(s: State): State
    requires Shape(s) && s.count >= 1
  {
    s.(ph := s.ph[s.count - 1 := s.ph[s.count - 1].(die := true)], leaver := [MAIN],
       pc := s.pc[MAIN := Asleep(RemoveAgain(s.count))])
  }

  lemma Remove(s: State)
    requires Reached(s) && Free(s) && s.pc[MAIN] == Idle && s.count >= 1 && s.leaver == []
    ensures Reached(Marked(s))
  {
    MainEnters(s, DoRemove);
    var h := Holding(s, MAIN, RemovePhilosopher);
    RemoveRefines(h);
    assert h.pc[MAIN := Asleep(RemoveAgain(s.count))] == Marked(s).pc;
    assert h.leaver + [MAIN] == [MAIN];
    assert RemoveSection(h) == Marked(s);
  }

  /** The last philosopher has left the ring. */
  function Shrunk(s: State): State
    requires Shape(s) && s.count >= 1
  {
    var i := s.count - 1;
    s.(count := i, ph := s.ph[i := s.ph[i].(st := Dying, die := false, open := false)], pc := s.pc[i := Off])
  }

  /** Main has been woken and is about to lock `critical_m` again. */
  function Woken(s: State): State
    requires Shape(s) && s.count >= 1
  {
    Shrunk(s).(leaver := [], pc := s.pc[s.count - 1 := Off][MAIN := Want(RemoveAgain(s.count))])
  }

  predicate LastMayGo(s: State) {
    Free(s) && s.count >= 1 && s.pc[s.count - 1] == Want(ShouldDie) && (s.count >= 2 ==> !Eats(s, s.count - 2))
  }

  lemma LastDies(s: State)
    requires LastMayGo(s)
    ensures var h := Holding(Marked(s), s.count - 1, ShouldDie);
      Shape(h) && DieSection(h, s.count - 1) == Woken(s)
  {
    var i := s.count - 1;
    var h := Holding(Marked(s), i, ShouldDie);
    var q := SetState(h, i, Dying);
    assert q.ph[Left(i, s.count)].st != Eating;
    var c := Closed(q, i).(leaver := []);
    assert c.ph == Shrunk(s).ph;
    assert [MAIN][1..] == [];
    var w := Wake(c, Some(MAIN));
    assert DieTurn(q, i) == Exit(w, i, Off);
    assert w.pc[i := Off] == Woken(s).pc;
  }

  /** should_die of the last philosopher, which main waits for. */
  lemma Dies(s: State)
    requires LastMayGo(s) && Reached(Marked(s))
    ensures Reached(Woken(s))
  {
    LastDies(s);
    Enters(Marked(s), s.count - 1, ShouldDie);
    DieRefines(Holding(Marked(s), s.count - 1, ShouldDie), s.count - 1);
  }

  /** The whole of remove_philosopher. */
  lemma Leave(s: State)
    requires Reached(s) && LastMayGo(s) && s.pc[MAIN] == Idle && s.leaver == []
    ensures Reached(Shrunk(s))
  {
    Remove(s);
    Dies(s);
    Enters(Woken(s), MAIN, RemoveAgain(s.count));
    var e := Holding(Woken(s), MAIN, RemoveAgain(s.count));
    RemoveRefines(e);
    assert e.pc[MAIN := Idle] == Shrunk(s).pc;
    assert RemoveTurn(e, s.count) == Shrunk(s);
  }

  // ----- the two runs -----

  predicate Rests(s: State, i: nat) requires Shape(s) && i < MAX_PHILOSOPHERS {
    s.ph[i] == Phil(Thinking, false, true, Mutex(false, []), []) && s.pc[i] == Want(ShouldDie)
  }

  /** No section is running and main waits for a key. */
  predicate Between(s: State) {
    Free(s) && s.pc[MAIN] == Idle && s.leaver == []
  }

  lemma SeatThree() returns (s: State)
    ensures Reached(s) && Between(s) && s.count == 3 && Rests(s, 0) && Rests(s, 1) && Rests(s, 2)
  {
    ReachStart();
    Add(Start());
    var s1 := Seated(Start(), 0);
    Add(s1);
    var s2 := Seated(s1, 1);
    Add(s2);
    s := Seated(s2, 2);
  }

  /** Of three philosophers 2 eats, and 0 waits for it. */
  lemma Begin() returns (s: State)
    ensures Reached(s) && Between(s) && s.count == 3 && Rests(s, 1)
    ensures s.pc[0] == OwnQueued && s.ph[0].st == Hungry
    ensures s.pc[2] == Want(PutForks) && s.ph[2].st == Eating && !s.ph[2].die
  {
    var s0 := SeatThree();
    Stay(s0, 2);
    var s1 := s0.(pc := s0.pc[2 := Want(TakeForks)]);
    Eat(s1, 2);
    var s2 := s1.(ph := s1.ph[2 := s1.ph[2].(st := Eating)], pc := s1.pc[2 := Want(PutForks)]);
    Stay(s2, 0);
    var s3 := s2.(pc := s2.pc[0 := Want(TakeForks)]);
    Wait(s3, 0);
    s := s3.(ph := s3.ph[0 := s3.ph[0].(st := Hungry, sem := Mutex(false, [0]))], pc := s3.pc[0 := OwnQueued]);
  }

  /** One step of a run that starts from an empty table breaks the property. */
  lemma AddOrphans() returns (s: State)
    ensures Reached(s) && Inv(s) && HungryOk(s) && Growing(s, MAIN)
    ensures Shape(Step(s, MAIN, DoAdd)) && !HungryOk(Step(s, MAIN, DoAdd))
  {
    var s0 := Begin();
    MainEnters(s0, DoAdd);
    s := Holding(s0, MAIN, AddPhilosopher);
    ReachedOk(s);
    assert HungryOk(s) by { assert HungryAt(s, 0) && HungryAt(s, 1) && HungryAt(s, 2); }
    AddKeepsHungry(s);
  }

  /** Philosopher 3 comes between 2 and 0, so that 2 tests 1 and 3 when it stops eating. */
  lemma Forget() returns (s: State)
    ensures Reached(s) && Between(s) && s.count == 4
    ensures s.pc[0] == OwnQueued && s.ph[0].st == Hungry
    ensures forall i: nat :: 1 <= i <= 3 ==> s.pc[i] == Want(ShouldDie) && s.ph[i].st == Thinking
  {
    var s0 := Begin();
    Add(s0);
    var s1 := Seated(s0, 3);
    assert Neighbour(2, 4, false) == 1 && Neighbour(2, 4, true) == 3;
    Put(s1, 2);
    s := s1.(ph := s1.ph[2 := s1.ph[2].(st := Thinking)], pc := s1.pc[2 := Want(ShouldDie)]);
  }

  /** Philosophers 3, 2 and 1 are removed; nobody tests 0 any more. */
  lemma Alone() returns (s: State)
    ensures Reached(s) && Between(s) && s.count == 1 && s.pc[0] == OwnQueued && s.ph[0].st == Hungry
  {
    var s4 := Forget();
    Leave(s4);
    var s3 := Shrunk(s4);
    Leave(s3);
    var s2 := Shrunk(s3);
    Leave(s2);
    s := Shrunk(s2);
  }

  /** Main result: philo.c can deadlock.  In a run that starts from an empty table, one
      philosopher is left on the ring, HUNGRY and queued on its own mutex; main sleeps
      until it dies, and no process has a step left. */
  lemma AddDeadlocks() returns (s: State)
    ensures Reached(s) && Shape(s) && Stuck(s)
    ensures s.count == 1 && s.ph[0].st == Hungry && s.pc[0] == OwnQueued && s.crit.unlocked && s.pc[MAIN].Asleep?
  {
    var s1 := Alone();
    Remove(s1);
    s := Marked(s1);
    var b: seq<State> :| Run(b) && b[|b| - 1] == s;
    DeadlockIff(b, |b| - 1);
  }
}
