/** The table is safe in every run of the philosophers (philo.c). */
module PhilosopherSafety {
  import opened Sync
  import opened Philosophers
  import opened PhilosopherSteps

  /** One step of any process keeps the invariant. */
  lemma StepOk(s: State, t: Pid, key: Command)
    requires Inv(s) && t <= MAIN
    ensures Inv(Step(s, t, key))
  {
    if t < MAIN { assert PhilOk(s, t); }
    match s.pc[t]
    case Idle => if t == MAIN { IdleOk(s, t, key); }
    case Want(sec) => EnterOk(s, t, sec);
    case OwnLock => if t < MAIN { OwnLockOk(s, t, key); }
    case In(pt) => if t == MAIN { MainInOk(s, pt); } else { PhilosopherInOk(s, t, pt); }
    case _ =>
  }

  lemma MainInOk(s: State, pt: Point)
    requires Inv(s) && s.pc[MAIN] == In(pt)
    ensures Inv(StepMainIn(s, pt))
  {
    match pt
    case AddCheck => AddCheckOk(s);
    case AddOpen => AddOpenOk(s);
    case AddLock => AddLockOk(s);
    case AddExec => AddExecOk(s);
    case MainUnlock => MainExitOk(s);
    case RemoveMark => RemoveMarkOk(s);
    case RemoveLoop(c) => RemoveLoopOk(s, c);
    case Paused => MainExitOk(s);
    case _ =>
  }

  lemma PhilosopherInOk(s: State, t: Pid, pt: Point)
    requires Inv(s) && t < MAX_PHILOSOPHERS && s.pc[t] == In(pt)
    ensures Inv(StepIn(s, t, pt))
  {
    match pt
    case DieCheck => DieCheckOk(s, t);
    case DieLoop =>
      if s.ph[Left(t, s.count)].st == Eating && s.ph[Right(t, s.count)].st == Eating { DieSleepOk(s, t); }
      else { DieLeaveOk(s, t); }
    case DieClose => DieCloseOk(s, t);
    case DieSignal => DieSignalOk(s, t);
    case DieUnlock => DieUnlockOk(s, t);
    case KeepUnlock => KeepUnlockOk(s, t);
    case TakeSet => TakeSetOk(s, t);
    case TakeTest => TakeTestOk(s, t);
    case TakeGrant => TakeGrantOk(s, t);
    case TakeUnlock => TakeUnlockOk(s, t);
    case PutSet => PutSetOk(s, t);
    case PutTest(right) => PutTestOk(s, t, right);
    case PutGrant(right) => PutGrantOk(s, t, right);
    case PutSignal(right) => PutSignalOk(s, t, right);
    case PutUnlock => PutUnlockOk(s, t);
    case _ =>
  }

  // ----- all runs -----

  ghost predicate Next(s: State, s': State) {
    Shape(s) && exists t: Pid, key: Command :: t <= MAIN && s' == Step(s, t, key)
  }

  ghost predicate Run(b: seq<State>) {
    b != [] && b[0] == Start() && forall k :: 0 < k < |b| ==> Next(b[k - 1], b[k])
  }

  lemma {:induction false} RunOk(b: seq<State>, k: nat)
    requires Run(b) && k < |b|
    ensures Inv(b[k])
  {
    if k == 0 {
      StartOk();
    } else {
      RunOk(b, k - 1);
      assert Next(b[k - 1], b[k]);
      var t: Pid, key: Command :| t <= MAIN && b[k] == Step(b[k - 1], t, key);
      StepOk(b[k - 1], t, key);
    }
  }

  /** Main result: in every run no two neighbours eat, whatever is added and removed. */
  lemma NeighboursNeverEat(b: seq<State>, k: nat)
    requires Run(b) && k < |b|
    ensures Shape(b[k])
    ensures var s := b[k];
      forall i: nat :: 2 <= s.count && i < s.count && s.ph[i].st == Eating ==>
        s.ph[Left(i, s.count)].st != Eating && s.ph[Right(i, s.count)].st != Eating
  {
    RunOk(b, k);
    var s := b[k];
    forall i: nat | 2 <= s.count && i < s.count && s.ph[i].st == Eating
      ensures s.ph[Left(i, s.count)].st != Eating && s.ph[Right(i, s.count)].st != Eating
    {
      assert Right(Left(i, s.count), s.count) == i;
    }
  }

  /** Main result: the private mutex of a running philosopher is free exactly when
      the forks were granted and its own lock is still to come; a philosopher past
      take_forks is EATING. */
  lemma PrivateMutexIsSemaphore(b: seq<State>, k: nat, i: nat)
    requires Run(b) && k < |b|
    ensures Shape(b[k])
    ensures var s := b[k]; Alive(s, i) ==>
      var c := s.pc[i];
      && (s.ph[i].sem.unlocked <==>
            s.ph[i].st == Eating && (c == In(TakeUnlock) || c == OwnLock) && GrantTarget(s) != Some(i))
      && (c == Want(PutForks) || c == Queued(PutForks) || c == In(PutSet) ==> s.ph[i].st == Eating)
      && (c == OwnQueued <==> s.ph[i].sem.queue == [i])
      && (c == OwnQueued && s.ph[i].st == Eating ==> GrantTarget(s) == Some(i))
  {
    RunOk(b, k);
    assert Alive(b[k], i) ==> PhilOk(b[k], i);
  }

  /** Main result: at most one process is inside a section of `critical_m`. */
  lemma CriticalExclusive(b: seq<State>, k: nat, t: Pid, u: Pid)
    requires Run(b) && k < |b| && t <= MAIN && u <= MAIN
    ensures Shape(b[k])
    ensures b[k].pc[t].In? && b[k].pc[u].In? ==> t == u && !b[k].crit.unlocked
  {
    RunOk(b, k);
  }

  /** Whoever does not hold `critical_m` changes neither the ring nor the state of a philosopher. */
  lemma OnlyHolderChanges(s: State, t: Pid, key: Command)
    requires Inv(s) && t <= MAIN && s.holder != Some(t)
    ensures var s' := Step(s, t, key);
      && Shape(s') && s'.count == s.count && s'.leaver == s.leaver
      && (forall i: nat :: i < MAX_PHILOSOPHERS ==> s'.ph[i] == s.ph[i].(sem := s'.ph[i].sem))
      && (forall u: nat :: u <= MAIN && u != t ==> s'.pc[u] == s.pc[u])
      && (s.holder.Some? ==> s'.holder == s.holder)
  {
    assert !s.pc[t].In?;
  }

  predicate SameStates(s: State, s': State) {
    && Shape(s) && Shape(s') && s'.count == s.count
    && forall i: nat :: i < MAX_PHILOSOPHERS ==> s'.ph[i].st == s.ph[i].st
  }

  lemma StepWhilePaused(s: State, t: Pid, key: Command)
    requires Inv(s) && t <= MAIN && s.pc[MAIN] == In(Paused)
    ensures t == MAIN ==> Step(s, t, key).pc[MAIN] == Idle
    ensures t < MAIN ==> SameStates(s, Step(s, t, key))
  {
    if t == MAIN { ExitCrit(s, MAIN, Idle); } else { OnlyHolderChanges(s, t, key); }
  }

  lemma NextWhilePaused(s: State, s': State)
    requires Inv(s) && Next(s, s') && Shape(s') && s.pc[MAIN] == In(Paused) && s'.pc[MAIN] == In(Paused)
    ensures SameStates(s, s')
  {
    var t: Pid, key: Command :| t <= MAIN && s' == Step(s, t, key);
    StepWhilePaused(s, t, key);
  }

  lemma RunNext(b: seq<State>, k: nat)
    requires Run(b) && 0 < k < |b|
    ensures Inv(b[k - 1]) && Next(b[k - 1], b[k])
  {
    assert Next(b[k - 1], b[k]);
    RunOk(b, k - 1);
  }

  /** Main result: in every run, while the user has paused the table no philosopher's state
      changes, and the ring neither grows nor shrinks. */
  lemma {:induction false} PauseFreezes(b: seq<State>, j: nat, k: nat)
    requires Run(b) && j <= k < |b|
    requires forall i :: j <= i <= k ==> Shape(b[i]) && b[i].pc[MAIN] == In(Paused)
    ensures SameStates(b[j], b[k])
  {
    if j < k {
      PauseFreezes(b, j, k - 1);
      RunNext(b, k);
      NextWhilePaused(b[k - 1], b[k]);
    }
  }

  /** The pause key at a free table takes `critical_m`, and the next key gives it back. */
  lemma PauseAndResume(s: State, key: Command, key': Command)
    requires Inv(s) && s.pc[MAIN] == Idle && s.crit.unlocked
    ensures var s1 := Step(Step(s, MAIN, DoPause), MAIN, key);
      && s1.pc[MAIN] == In(Paused) && !s1.crit.unlocked && s1 == s.(crit := s1.crit, holder := Some(MAIN), pc := s1.pc)
      && Step(s1, MAIN, key') == s
  {
    assert s.pc[MAIN := Want(Pause)][MAIN := In(Paused)][MAIN := Idle] == s.pc;
  }
}
