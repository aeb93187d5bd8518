/** Nobody sleeps for nothing at the table (philo.c): what holds in addition to
    the safety of the table, and which call breaks it. */
module PhilosopherProgress {
  import opened Sync
  import opened Philosophers
  import opened PhilosopherSteps
  import opened PhilosopherSafety

  predicate Eats(s: State, i: nat) requires Shape(s) {
    i < MAX_PHILOSOPHERS && s.ph[i].st == Eating
  }

  /** The holder of `critical_m` still has to run `test(i)` in this section. */
  predicate WillTest(s: State, i: nat) requires Shape(s) {
    s.holder.Some? && s.holder.value < MAX_PHILOSOPHERS &&
    var h := s.holder.value;
    match s.pc[h]
    case In(TakeTest) => i == h
    case In(PutTest(right)) => i == Right(h, s.count) || (!right && i == Left(h, s.count))
    case In(PutGrant(right)) => !right && i == Right(h, s.count)
    case In(PutSignal(right)) => !right && i == Right(h, s.count)
    case _ => false
  }

  /** The holder of `critical_m` still has to signal i's condition in this section. */
  predicate WillSignal(s: State, i: nat) requires Shape(s) {
    s.holder.Some? && s.holder.value < MAX_PHILOSOPHERS &&
    var h := s.holder.value;
    match s.pc[h]
    case In(PutTest(right)) => i == Right(h, s.count) || (!right && i == Left(h, s.count))
    case In(PutGrant(right)) => i == Right(h, s.count) || (!right && i == Left(h, s.count))
    case In(PutSignal(right)) => i == Right(h, s.count) || (!right && i == Left(h, s.count))
    case _ => false
  }

  predicate HungryAt(s: State, i: nat) requires Shape(s) && i < MAX_PHILOSOPHERS {
    s.ph[i].st == Hungry ==> Eats(s, Left(i, s.count)) || Eats(s, Right(i, s.count)) || WillTest(s, i)
  }

  predicate DyingAt(s: State, i: nat) requires Shape(s) && i < MAX_PHILOSOPHERS {
    s.pc[i] == Asleep(DieAgain) ==> (Eats(s, Left(i, s.count)) && Eats(s, Right(i, s.count))) || WillSignal(s, i)
  }

  /** Every HUNGRY philosopher has an EATING neighbour, or is about to be tested. */
  predicate HungryOk(s: State) requires Shape(s) {
    forall i: nat :: i < s.count ==> HungryAt(s, i)
  }

  /** A philosopher asleep in should_die has two EATING neighbours, or is about to be signalled. */
  predicate DyingOk(s: State) requires Shape(s) {
    forall i: nat :: i < s.count ==> DyingAt(s, i)
  }

  predicate Growing(s: State, t: Pid) requires Shape(s) {
    t == MAIN && s.pc[MAIN] == In(AddCheck) && s.count < MAX_PHILOSOPHERS
  }

  /** Nobody stops eating or gets hungry, and nobody's turn to be tested is lost. */
  lemma HungryKept(s: State, s': State)
    requires Shape(s) && Shape(s') && HungryOk(s) && s'.count == s.count
    requires forall i: nat :: i < MAX_PHILOSOPHERS ==>
               && (s.ph[i].st == Eating ==> s'.ph[i].st == Eating)
               && (s'.ph[i].st == Hungry ==> s.ph[i].st == Hungry)
    requires forall i: nat :: i < s.count && s'.ph[i].st == Hungry && WillTest(s, i) ==>
               WillTest(s', i) || Eats(s', Left(i, s.count)) || Eats(s', Right(i, s.count))
    ensures HungryOk(s')
  {
    forall i: nat | i < s'.count
      ensures HungryAt(s', i)
    {
      assert HungryAt(s, i);
    }
  }

  /** Nobody stops eating or falls asleep, and nobody's signal is lost. */
  lemma DyingKept(s: State, s': State)
    requires Shape(s) && Shape(s') && DyingOk(s) && s'.count == s.count
    requires forall i: nat :: i < MAX_PHILOSOPHERS ==>
               && (s.ph[i].st == Eating ==> s'.ph[i].st == Eating)
               && (s'.pc[i] == Asleep(DieAgain) ==> s.pc[i] == Asleep(DieAgain))
               && (s'.pc[i] == Asleep(DieAgain) && WillSignal(s, i) ==> WillSignal(s', i))
    ensures DyingOk(s')
  {
    forall i: nat | i < s'.count
      ensures DyingAt(s', i)
    {
      assert DyingAt(s, i);
    }
  }

  /** A step keeps both. */
  predicate Kept(s: State, s': State) requires Shape(s) {
    Shape(s') && (HungryOk(s) ==> HungryOk(s')) && (DyingOk(s) ==> DyingOk(s'))
  }

  predicate Quiet(s: State) requires Shape(s) {
    s.holder.Some? && s.holder.value <= MAIN ==>
      match s.pc[s.holder.value]
      case In(TakeTest) => false
      case In(PutTest(_)) => false
      case In(PutGrant(_)) => false
      case In(PutSignal(_)) => false
      case _ => true
  }

  /** Leaving a section, or locking: `s0` is `s` up to a condition queue. */
  lemma ExitKept(s: State, s0: State, t: Pid, next: Pc)
    requires Inv(s) && t <= MAIN && s.holder == Some(t) && Quiet(s) && !next.In? && !next.Queued?
    requires s0.crit == s.crit && s0.holder == s.holder && s0.pc == s.pc && s0.count == s.count && |s0.ph| == |s.ph|
    requires forall i: nat :: i < MAX_PHILOSOPHERS ==> s0.ph[i].st == s.ph[i].st
    ensures Shape(Exit(s0, t, next))
    ensures HungryOk(s) ==> HungryOk(Exit(s0, t, next))
    ensures DyingOk(s) && next != Asleep(DieAgain) ==> DyingOk(Exit(s0, t, next))
  {
    ExitCrit(s0, t, next);
    var s' := Exit(s0, t, next);
    if HungryOk(s) { HungryKept(s, s'); }
    if DyingOk(s) && next != Asleep(DieAgain) { DyingKept(s, s'); }
  }

  lemma EnterKept(s: State, t: Pid, sec: Section)
    requires Inv(s) && t <= MAIN && s.pc[t] == Want(sec)
    ensures Kept(s, Enter(s, t, sec))
  {
    EnterCrit(s, t, sec);
    var s' := Enter(s, t, sec);
    if HungryOk(s) { HungryKept(s, s'); }
    if DyingOk(s) { DyingKept(s, s'); }
  }

  lemma OwnLockKept(s: State, t: Pid, key: Command)
    requires Inv(s) && t < MAX_PHILOSOPHERS && s.pc[t] == OwnLock
    ensures Kept(s, Step(s, t, key))
  {
    var s' := Step(s, t, key);
    if HungryOk(s) { HungryKept(s, s'); }
    if DyingOk(s) { DyingKept(s, s'); }
  }

  /** Points of a section at which nobody is unblocked and no state matters. */
  lemma InsideKept(s: State, t: Pid, pt: Point)
    requires Inv(s) && t < MAX_PHILOSOPHERS && s.pc[t] == In(pt)
    requires pt == DieCheck || pt == DieClose || pt == TakeGrant
    ensures Kept(s, StepIn(s, t, pt))
  {
    assert PhilOk(s, t);
    if pt == TakeGrant { GrantEffect(s, t); }
    var s' := StepIn(s, t, pt);
    if HungryOk(s) { HungryKept(s, s'); }
    if DyingOk(s) { DyingKept(s, s'); }
  }

  lemma TestYesHungry(s: State, t: Pid, j: nat, yes: Point)
    requires Shape(s) && t < MAX_PHILOSOPHERS && s.holder == Some(t) && j < s.count && t < s.count
    requires TestPoint(s, t, j, yes) && CanEat(s, j) && HungryOk(s)
    ensures HungryOk(Goto(SetState(s, j, Eating), t, yes))
  {
    HungryKept(s, Goto(SetState(s, j, Eating), t, yes));
  }

  lemma TestYesDying(s: State, t: Pid, j: nat, yes: Point)
    requires Shape(s) && t < MAX_PHILOSOPHERS && s.holder == Some(t) && j < s.count && t < s.count
    requires TestPoint(s, t, j, yes) && CanEat(s, j) && DyingOk(s)
    ensures DyingOk(Goto(SetState(s, j, Eating), t, yes))
  {
    DyingKept(s, Goto(SetState(s, j, Eating), t, yes));
  }

  lemma TestNo(s: State, t: Pid, j: nat, yes: Point, no: Point)
    requires Shape(s) && t < MAX_PHILOSOPHERS && s.holder == Some(t) && j < s.count && t < s.count
    requires TestPoint(s, t, j, yes) && !CanEat(s, j)
    requires no == if yes.PutGrant? then PutSignal(yes.right) else TakeUnlock
    ensures var s' := Goto(s, t, no);
      Kept(s, s')
  {
    var s' := Goto(s, t, no);
    if HungryOk(s) { HungryKept(s, s'); }
    if DyingOk(s) { DyingKept(s, s'); }
  }

  /** `test(j)` inside a section of `t`, whether it succeeds or not. */
  lemma TestKept(s: State, t: Pid, j: nat, yes: Point, no: Point)
    requires Shape(s) && t < MAX_PHILOSOPHERS && s.holder == Some(t) && j < s.count && t < s.count
    requires TestPoint(s, t, j, yes)
    requires no == if yes.PutGrant? then PutSignal(yes.right) else TakeUnlock
    ensures var s' := if CanEat(s, j) then Goto(SetState(s, j, Eating), t, yes) else Goto(s, t, no);
      Kept(s, s')
  {
    if CanEat(s, j) {
      if HungryOk(s) { TestYesHungry(s, t, j, yes); }
      if DyingOk(s) { TestYesDying(s, t, j, yes); }
    } else {
      TestNo(s, t, j, yes, no);
    }
  }

  /** The mutex of a neighbour is unlocked: its signal is still to come. */
  lemma NeighbourGranted(s: State, s1: State, t: Pid, j: nat, right: bool)
    requires Shape(s) && t < MAX_PHILOSOPHERS && s.holder == Some(t) && j == Neighbour(t, s.count, right)
    requires s.pc[t] == In(PutGrant(right)) && OnlyAt(s, s1, j)
    requires s1.pc[j] == Asleep(DieAgain) ==> s.pc[j] == Asleep(DieAgain)
    ensures Kept(s, Goto(s1, t, PutSignal(right)))
  {
    var s' := Goto(s1, t, PutSignal(right));
    if HungryOk(s) { HungryKept(s, s'); }
    if DyingOk(s) { DyingKept(s, s'); }
  }

  /** A neighbour is signalled, and no longer sleeps. */
  lemma NeighbourSignalled(s: State, s1: State, t: Pid, j: nat, right: bool)
    requires Shape(s) && t < MAX_PHILOSOPHERS && s.holder == Some(t) && j == Neighbour(t, s.count, right)
    requires s.pc[t] == In(PutSignal(right)) && OnlyAt(s, s1, j) && s1.pc[j] != Asleep(DieAgain)
    ensures Kept(s, Goto(s1, t, if right then PutUnlock else PutTest(true)))
  {
    var s' := Goto(s1, t, if right then PutUnlock else PutTest(true));
    if HungryOk(s) { HungryKept(s, s'); }
    if DyingOk(s) { DyingKept(s, s'); }
  }

  lemma PutGrantKept(s: State, t: Pid, right: bool)
    requires Inv(s) && t < MAX_PHILOSOPHERS && s.pc[t] == In(PutGrant(right))
    ensures Kept(s, StepIn(s, t, PutGrant(right)))
  {
    var j := Neighbour(t, s.count, right);
    assert PhilOk(s, t) && PhilOk(s, j);
    GrantEffect(s, j);
    PassedOnly(s, j);
    NeighbourGranted(s, Passed(s, j), t, j, right);
  }

  lemma PutSignalKept(s: State, t: Pid, right: bool)
    requires Inv(s) && t < MAX_PHILOSOPHERS && s.pc[t] == In(PutSignal(right))
    ensures Kept(s, StepIn(s, t, PutSignal(right)))
  {
    var j := Neighbour(t, s.count, right);
    assert PhilOk(s, t) && PhilOk(s, j);
    SignalEffect(s, j);
    RousedOnly(s, j);
    NeighbourSignalled(s, Roused(s, j), t, j, right);
  }

  lemma TakeSetKept(s: State, t: Pid)
    requires Inv(s) && t < MAX_PHILOSOPHERS && s.pc[t] == In(TakeSet)
    ensures Kept(s, StepIn(s, t, TakeSet))
  {
    assert PhilOk(s, t);
    var s' := StepIn(s, t, TakeSet);
    if HungryOk(s) {
      forall i: nat | i < s.count
        ensures HungryAt(s', i)
      {
        assert HungryAt(s, i);
      }
    }
    if DyingOk(s) { DyingKept(s, s'); }
  }

  /** A philosopher stops eating: its neighbours get their turn in the same section. */
  lemma PutSetKept(s: State, t: Pid)
    requires Inv(s) && t < MAX_PHILOSOPHERS && s.pc[t] == In(PutSet)
    ensures Kept(s, StepIn(s, t, PutSet))
  {
    assert PhilOk(s, t);
    var s' := StepIn(s, t, PutSet);
    forall i: nat | i < s.count
      ensures HungryOk(s) ==> HungryAt(s', i)
      ensures DyingOk(s) ==> DyingAt(s', i)
    {
      assert HungryOk(s) ==> HungryAt(s, i);
      assert DyingOk(s) ==> DyingAt(s, i);
    }
  }

  /** The last philosopher leaves while at most one of its neighbours eats. */
  lemma LeaveKept(s: State, t: Pid)
    requires Inv(s) && t < MAX_PHILOSOPHERS && s.pc[t] == In(DieLoop)
    requires !(Eats(s, Left(t, s.count)) && Eats(s, Right(t, s.count)))
    ensures Kept(s, StepIn(s, t, DieLoop))
  {
    assert PhilOk(s, t);
    var s' := Goto(s.(ph := s.ph[t := s.ph[t].(die := false)], count := s.count - 1), t, DieClose);
    assert StepIn(s, t, DieLoop) == s';
    forall i: nat | i < s'.count
      ensures HungryOk(s) ==> HungryAt(s', i)
      ensures DyingOk(s) ==> DyingAt(s', i)
    {
      assert PhilOk(s, i);
      assert HungryOk(s) ==> HungryAt(s, i);
    }
  }

  lemma SleepKept(s: State, t: Pid)
    requires Inv(s) && t < MAX_PHILOSOPHERS && s.pc[t] == In(DieLoop)
    requires Eats(s, Left(t, s.count)) && Eats(s, Right(t, s.count))
    ensures Kept(s, StepIn(s, t, DieLoop))
  {
    assert PhilOk(s, t);
    var s0 := s.(ph := s.ph[t := s.ph[t].(cond := s.ph[t].cond + [t])]);
    ExitKept(s, s0, t, Asleep(DieAgain));
    ExitCrit(s0, t, Asleep(DieAgain));
    var s' := Exit(s0, t, Asleep(DieAgain));
    forall i: nat | i < s.count
      ensures DyingOk(s) ==> DyingAt(s', i)
    {
      assert DyingOk(s) ==> DyingAt(s, i);
    }
  }

  lemma DieSignalKept(s: State, t: Pid)
    requires Inv(s) && t < MAX_PHILOSOPHERS && s.pc[t] == In(DieSignal)
    ensures Kept(s, StepIn(s, t, DieSignal))
  {
    assert PhilOk(s, t);
    var s' := StepIn(s, t, DieSignal);
    if HungryOk(s) { HungryKept(s, s'); }
    if DyingOk(s) { DyingKept(s, s'); }
  }

  lemma PhilosopherKept(s: State, t: Pid, pt: Point)
    requires Inv(s) && t < MAX_PHILOSOPHERS && s.pc[t] == In(pt)
    ensures Kept(s, StepIn(s, t, pt))
  {
    assert PhilOk(s, t);
    match pt
    case DieLoop =>
      if Eats(s, Left(t, s.count)) && Eats(s, Right(t, s.count)) { SleepKept(s, t); } else { LeaveKept(s, t); }
    case DieSignal => DieSignalKept(s, t);
    case DieUnlock => ExitKept(s, s, t, Off);
    case KeepUnlock => ExitKept(s, s, t, Want(TakeForks));
    case TakeSet => TakeSetKept(s, t);
    case TakeUnlock => ExitKept(s, s, t, OwnLock);
    case PutSet => PutSetKept(s, t);
    case PutGrant(right) => PutGrantKept(s, t, right);
    case PutSignal(right) => PutSignalKept(s, t, right);
    case PutUnlock => ExitKept(s, s, t, Want(ShouldDie));
    case DieCheck => InsideKept(s, t, pt);
    case DieClose => InsideKept(s, t, pt);
    case TakeTest => TestKept(s, t, t, TakeGrant, TakeUnlock);
    case TakeGrant => InsideKept(s, t, pt);
    case PutTest(right) => TestKept(s, t, Neighbour(t, s.count, right), PutGrant(right), PutSignal(right));
    case _ =>
  }

  lemma MainExitKept(s: State, pt: Point)
    requires Inv(s) && s.pc[MAIN] == In(pt) && (pt == MainUnlock || pt == Paused || pt == RemoveLoop(s.count))
    ensures Kept(s, StepMainIn(s, pt))
  {
    match pt
    case RemoveLoop(c) => ExitKept(s, s.(leaver := s.leaver + [MAIN]), MAIN, Asleep(RemoveAgain(c)));
    case _ => ExitKept(s, s, MAIN, Idle);
  }

  lemma MainSetKept(s: State, pt: Point)
    requires Inv(s) && s.pc[MAIN] == In(pt) && !Growing(s, MAIN)
    requires pt != MainUnlock && pt != Paused && pt != RemoveLoop(s.count)
    ensures Kept(s, StepMainIn(s, pt))
  {
    if s.count > 0 { assert PhilOk(s, s.count - 1); }
    QuietMain(s, StepMainIn(s, pt));
  }

  lemma MainKept(s: State, pt: Point)
    requires Inv(s) && s.pc[MAIN] == In(pt)
    ensures Shape(StepMainIn(s, pt))
    ensures !Growing(s, MAIN) ==> Kept(s, StepMainIn(s, pt))
    ensures DyingOk(s) ==> DyingOk(StepMainIn(s, pt))
  {
    if Growing(s, MAIN) {
      if DyingOk(s) { AddDying(s); }
    } else if pt == MainUnlock || pt == Paused || pt == RemoveLoop(s.count) {
      MainExitKept(s, pt);
    } else {
      MainSetKept(s, pt);
    }
  }

  lemma QuietMain(s: State, s': State)
    requires Inv(s) && s.holder == Some(MAIN) && Shape(s') && s'.count == s.count
    requires forall i: nat :: i < MAX_PHILOSOPHERS ==>
               && (s.ph[i].st == Eating ==> s'.ph[i].st == Eating)
               && (s'.ph[i].st == Hungry ==> s.ph[i].st == Hungry)
               && (s'.pc[i] == Asleep(DieAgain) ==> s.pc[i] == Asleep(DieAgain))
    ensures HungryOk(s) ==> HungryOk(s')
    ensures DyingOk(s) ==> DyingOk(s')
  {
    if HungryOk(s) { HungryKept(s, s'); }
    if DyingOk(s) { DyingKept(s, s'); }
  }

  lemma AddDying(s: State)
    requires Inv(s) && s.pc[MAIN] == In(AddCheck) && s.count < MAX_PHILOSOPHERS && DyingOk(s)
    ensures DyingOk(StepMainIn(s, AddCheck))
  {
    var s' := StepMainIn(s, AddCheck);
    forall i: nat | i < s'.count
      ensures DyingAt(s', i)
    {
      assert PhilOk(s, i);
    }
  }

  lemma StepKept(s: State, t: Pid, key: Command)
    requires Inv(s) && t <= MAIN
    ensures Shape(Step(s, t, key))
    ensures HungryOk(s) && !Growing(s, t) ==> HungryOk(Step(s, t, key))
    ensures DyingOk(s) ==> DyingOk(Step(s, t, key))
  {
    if t < MAIN { assert PhilOk(s, t); }
    match s.pc[t]
    case Idle =>
      if t == MAIN {
        var s' := s.(pc := s.pc[t := Want(CommandSection(key))]);
        if HungryOk(s) { HungryKept(s, s'); }
        if DyingOk(s) { DyingKept(s, s'); }
      }
    case Want(sec) => EnterKept(s, t, sec);
    case OwnLock => if t < MAIN { OwnLockKept(s, t, key); }
    case In(pt) => if t == MAIN { MainKept(s, pt); } else { PhilosopherKept(s, t, pt); }
    case _ =>
  }

  // ----- all runs -----

  lemma {:induction false} DyingRun(b: seq<State>, k: nat)
    requires Run(b) && k < |b|
    ensures Inv(b[k]) && DyingOk(b[k])
  {
    RunOk(b, k);
    if k > 0 {
      DyingRun(b, k - 1);
      assert Next(b[k - 1], b[k]);
      var t: Pid, key: Command :| t <= MAIN && b[k] == Step(b[k - 1], t, key);
      StepKept(b[k - 1], t, key);
    }
  }

  /** Main result: no wakeup is lost around removal.  In every run, whenever
      `critical_m` is free, a philosopher asleep in should_die has two EATING
      neighbours, and main asleep in remove_philosopher waits for a marked
      philosopher that is still on the ring. */
  lemma SleepersHaveAReason(b: seq<State>, k: nat, i: nat)
    requires Run(b) && k < |b| && Shape(b[k]) && b[k].crit.unlocked && i < MAX_PHILOSOPHERS
    ensures var s := b[k];
      && (s.pc[i] == Asleep(DieAgain) ==> Eats(s, Left(i, s.count)) && Eats(s, Right(i, s.count)))
      && (s.pc[MAIN].Asleep? ==> s.count >= 1 && s.ph[s.count - 1].die && Alive(s, s.count - 1))
  {
    DyingRun(b, k);
    var s := b[k];
    assert PhilOk(s, i);
    if i < s.count { assert DyingAt(s, i); }
  }

  /** A process at the table that is neither asleep nor in a queue. */
  predicate CanMove(c: Pc) {
    c.Want? || c == OwnLock
  }

  /** Main result: in every run, whenever `critical_m` is free, nobody at the table
      can go on exactly when everybody waits for its own mutex. */
  lemma NobodyMovesIff(b: seq<State>, k: nat)
    requires Run(b) && k < |b| && Shape(b[k]) && b[k].crit.unlocked
    ensures var s := b[k];
      (forall i: nat :: i < s.count ==> !CanMove(s.pc[i])) <==>
      (forall i: nat :: i < s.count ==> s.pc[i] == OwnQueued && s.ph[i].st == Hungry)
  {
    DyingRun(b, k);
    NobodyMoves(b[k]);
  }

  /** A philosopher that cannot go on waits for its own mutex, or for an eater. */
  lemma BlockedRow(s: State, i: nat)
    requires Inv(s) && DyingOk(s) && s.crit.unlocked && i < s.count && !CanMove(s.pc[i])
    ensures (s.pc[i] == OwnQueued && s.ph[i].st == Hungry) || Eats(s, Left(i, s.count))
  {
    assert PhilOk(s, i) && DyingAt(s, i);
  }

  lemma EaterCanMove(s: State, i: nat)
    requires Inv(s) && s.crit.unlocked && i < s.count && Eats(s, i)
    ensures CanMove(s.pc[i])
  {
    assert PhilOk(s, i);
  }

  lemma NobodyMoves(s: State)
    requires Inv(s) && DyingOk(s) && s.crit.unlocked
    ensures (forall i: nat :: i < s.count ==> !CanMove(s.pc[i])) <==>
            (forall i: nat :: i < s.count ==> s.pc[i] == OwnQueued && s.ph[i].st == Hungry)
  {
    if forall i: nat :: i < s.count ==> !CanMove(s.pc[i]) {
      forall i: nat | i < s.count
        ensures s.pc[i] == OwnQueued && s.ph[i].st == Hungry
      {
        BlockedRow(s, i);
        if Eats(s, Left(i, s.count)) { EaterCanMove(s, Left(i, s.count)); }
      }
    }
  }

  // ----- when nothing moves any more -----

  /** No process has a step left, whatever key is pressed. */
  ghost predicate Stuck(s: State) requires Shape(s) {
    forall t: Pid, key: Command :: t <= MAIN ==> Step(s, t, key) == s
  }

  lemma ExitMoves(s: State, t: Pid, next: Pc)
    requires t < |s.pc| && !next.In? && !next.Queued?
    ensures t < |Exit(s, t, next).pc| && !Exit(s, t, next).pc[t].In?
  {
  }

  lemma PhilosopherMoves(s: State, t: Pid, pt: Point)
    requires Shape(s) && t < MAX_PHILOSOPHERS && s.pc[t] == In(pt) && PhilosopherPoint(pt)
    ensures t < |StepIn(s, t, pt).pc| && StepIn(s, t, pt).pc[t] != In(pt)
  {
    match pt
    case DieLoop => ExitMoves(s.(ph := s.ph[t := s.ph[t].(cond := s.ph[t].cond + [t])]), t, Asleep(DieAgain));
    case DieUnlock => ExitMoves(s, t, Off);
    case KeepUnlock => ExitMoves(s, t, Want(TakeForks));
    case TakeUnlock => ExitMoves(s, t, OwnLock);
    case PutUnlock => ExitMoves(s, t, Want(ShouldDie));
    case _ =>
  }

  lemma MainMoves(s: State, pt: Point)
    requires Shape(s) && s.pc[MAIN] == In(pt) && !PhilosopherPoint(pt)
    ensures MAIN < |StepMainIn(s, pt).pc| && StepMainIn(s, pt).pc[MAIN] != In(pt)
  {
  }

  /** The holder of `critical_m` always goes on. */
  lemma HolderMoves(s: State, t: Pid)
    requires Inv(s) && t <= MAIN && s.pc[t].In?
    ensures Step(s, t, DoAdd) != s
  {
    if t == MAIN {
      MainMoves(s, s.pc[t].pt);
    } else {
      assert PhilOk(s, t);
      PhilosopherMoves(s, t, s.pc[t].pt);
    }
  }

  /** Main result: in every run, no process has a step left exactly when main sleeps
      in remove_philosopher, `critical_m` is free, and every philosopher of the ring
      is HUNGRY and waits for its own mutex. */
  lemma DeadlockIff(b: seq<State>, k: nat)
    requires Run(b) && k < |b|
    ensures Shape(b[k])
    ensures var s := b[k];
      Stuck(s) <==>
        && s.crit.unlocked && s.pc[MAIN].Asleep?
        && forall i: nat :: i < s.count ==> s.pc[i] == OwnQueued && s.ph[i].st == Hungry
  {
    DyingRun(b, k);
    var s := b[k];
    if Stuck(s) { StuckBlocked(s); }
    if s.crit.unlocked && s.pc[MAIN].Asleep? && (forall i: nat :: i < s.count ==> s.pc[i] == OwnQueued) {
      forall t: Pid, key: Command | t <= MAIN
        ensures Step(s, t, key) == s
      {
        if t < MAIN { assert PhilOk(s, t); }
      }
    }
  }

  lemma StuckBlocked(s: State)
    requires Inv(s) && DyingOk(s) && Stuck(s)
    ensures s.crit.unlocked && s.pc[MAIN].Asleep?
    ensures forall i: nat :: i < s.count ==> s.pc[i] == OwnQueued && s.ph[i].st == Hungry
  {
    if s.holder.Some? {
      var h := s.holder.value;
      assert exists t: nat :: t <= MAIN && s.holder == Some(t);
      HolderMoves(s, h);
      assert false;
    }
    assert Step(s, MAIN, DoAdd) == s;
    forall i: nat | i < s.count
      ensures !CanMove(s.pc[i])
    {
      assert Step(s, i, DoAdd) == s;
      assert PhilOk(s, i);
    }
    NobodyMoves(s);
  }

  /** The guard of a growing step: neither end of the ring is HUNGRY with only the
      other end to wait for. */
  predicate AddSafe(s: State) requires Shape(s) {
    s.count >= 2 ==>
      && !(s.ph[s.count - 1].st == Hungry && !Eats(s, s.count - 2))
      && !(s.ph[0].st == Hungry && !Eats(s, 1))
  }

  lemma AddAt(s: State, s': State, i: nat)
    requires Shape(s) && Shape(s') && s'.count == s.count + 1 && s.holder == Some(MAIN) && s'.holder == Some(MAIN)
    requires forall j: nat :: j < s.count ==> s'.ph[j].st == s.ph[j].st
    requires s'.ph[s.count].st != Hungry && s'.ph[s.count].st != Eating
    requires i < s.count && HungryAt(s, i)
    ensures HungryAt(s', i) <==>
              && (s.count >= 2 && i == s.count - 1 ==> !(s.ph[i].st == Hungry && !Eats(s, i - 1)))
              && (s.count >= 2 && i == 0 ==> !(s.ph[0].st == Hungry && !Eats(s, 1)))
  {
  }

  /** add_philosopher can leave a HUNGRY philosopher that nobody will test.  It does
      not exactly when the guard holds. */
  lemma AddKeepsHungry(s: State)
    requires Inv(s) && HungryOk(s) && Growing(s, MAIN)
    ensures Shape(Step(s, MAIN, DoAdd))
    ensures HungryOk(Step(s, MAIN, DoAdd)) <==> AddSafe(s)
  {
    var n := s.count;
    assert PhilOk(s, n);
    var s' := Goto(s.(ph := s.ph[n := s.ph[n].(die := false)], count := n + 1), MAIN, AddOpen);
    assert Step(s, MAIN, DoAdd) == s';
    forall i: nat | i < n
      ensures HungryAt(s', i) <==>
              && (n >= 2 && i == n - 1 ==> !(s.ph[i].st == Hungry && !Eats(s, i - 1)))
              && (n >= 2 && i == 0 ==> !(s.ph[0].st == Hungry && !Eats(s, 1)))
    {
      assert HungryAt(s, i);
      AddAt(s, s', i);
    }
    assert HungryAt(s', n);
    if HungryOk(s') && n >= 2 { assert HungryAt(s', 0) && HungryAt(s', n - 1); }
  }

  /** Only add_philosopher enlarges the ring. */
  lemma OnlyAddGrows(s: State, t: Pid, key: Command)
    requires Inv(s) && t <= MAIN
    ensures Step(s, t, key).count > s.count <==> Growing(s, t)
    ensures Growing(s, t) ==> Step(s, t, key) == Step(s, MAIN, DoAdd)
  {
    if t < MAIN { assert PhilOk(s, t); }
  }

  // ----- runs whose adds meet the guard -----

  /** Part of a run, from a state in which nobody is forgotten. */
  ghost predicate Continues(b: seq<State>) {
    && b != [] && Inv(b[0]) && HungryOk(b[0]) && DyingOk(b[0])
    && forall k :: 0 < k < |b| ==> Next(b[k - 1], b[k])
  }

  lemma RunContinues(b: seq<State>)
    requires Run(b)
    ensures Continues(b)
  {
  }

  ghost predicate CarefulAdds(b: seq<State>) {
    forall k :: 0 < k < |b| && Shape(b[k - 1]) && b[k].count > b[k - 1].count ==> AddSafe(b[k - 1])
  }

  lemma CarefulStep(s: State, s': State)
    requires Inv(s) && HungryOk(s) && DyingOk(s) && Next(s, s')
    ensures Inv(s') && DyingOk(s')
    ensures HungryOk(s') <==> (s'.count > s.count ==> AddSafe(s))
  {
    var t: Pid, key: Command :| t <= MAIN && s' == Step(s, t, key);
    StepOk(s, t, key);
    StepKept(s, t, key);
    OnlyAddGrows(s, t, key);
    if Growing(s, t) { AddKeepsHungry(s); }
  }

  lemma {:induction false} CarefulRun(b: seq<State>, k: nat)
    requires Continues(b) && CarefulAdds(b) && k < |b|
    ensures Inv(b[k]) && HungryOk(b[k]) && DyingOk(b[k])
  {
    if k > 0 {
      CarefulRun(b, k - 1);
      assert Next(b[k - 1], b[k]);
      CarefulStep(b[k - 1], b[k]);
    }
  }

  lemma {:induction false} HungryRun(b: seq<State>, k: nat)
    requires Continues(b) && k < |b| && forall i :: 0 <= i < |b| ==> Shape(b[i]) && HungryOk(b[i])
    ensures Inv(b[k]) && DyingOk(b[k])
    ensures k > 0 && b[k].count > b[k - 1].count ==> AddSafe(b[k - 1])
  {
    if k > 0 {
      HungryRun(b, k - 1);
      assert Next(b[k - 1], b[k]);
      CarefulStep(b[k - 1], b[k]);
    }
  }

  /** Main result: every HUNGRY philosopher has an EATING neighbour or is about to be
      tested, in every state of a run, exactly when every add of the run meets the guard. */
  lemma NobodyForgottenIff(b: seq<State>)
    requires Continues(b)
    ensures (forall k :: 0 <= k < |b| ==> Shape(b[k]) && HungryOk(b[k])) <==> CarefulAdds(b)
  {
    if CarefulAdds(b) {
      forall k | 0 <= k < |b|
        ensures Shape(b[k]) && HungryOk(b[k])
      {
        CarefulRun(b, k);
      }
    }
    if forall k :: 0 <= k < |b| ==> Shape(b[k]) && HungryOk(b[k]) {
      forall k | 0 < k < |b| && Shape(b[k - 1]) && b[k].count > b[k - 1].count
        ensures AddSafe(b[k - 1])
      {
        HungryRun(b, k);
      }
    }
  }

  /** Main result: if every add meets the guard, then whenever `critical_m` is free
      every HUNGRY philosopher has an EATING neighbour. */
  lemma HungryHaveEatingNeighbours(b: seq<State>, k: nat, i: nat)
    requires Continues(b) && CarefulAdds(b) && k < |b| && Shape(b[k]) && b[k].crit.unlocked && i < b[k].count
    ensures var s := b[k];
      s.ph[i].st == Hungry ==> Eats(s, Left(i, s.count)) || Eats(s, Right(i, s.count))
  {
    CarefulRun(b, k);
    assert HungryAt(b[k], i);
  }

  /** Main result: if every add meets the guard, the table never deadlocks. */
  lemma SomebodyCanMove(b: seq<State>, k: nat) returns (i: nat)
    requires Continues(b) && CarefulAdds(b) && k < |b| && Shape(b[k]) && b[k].crit.unlocked && b[k].count >= 1
    ensures i < b[k].count && CanMove(b[k].pc[i])
  {
    CarefulRun(b, k);
    var s := b[k];
    NobodyMoves(s);
    if forall j: nat :: j < s.count ==> !CanMove(s.pc[j]) {
      assert HungryAt(s, 0);
      EaterCanMove(s, if Eats(s, Left(0, s.count)) then Left(0, s.count) else Right(0, s.count));
    }
    i :| i < s.count && CanMove(s.pc[i]);
  }

  /** Main result: if every add meets the guard, some process has a step left in every state. */
  lemma CarefulNeverStuck(b: seq<State>, k: nat)
    requires Continues(b) && CarefulAdds(b) && k < |b|
    ensures Shape(b[k]) && !Stuck(b[k])
  {
    CarefulRun(b, k);
    var s := b[k];
    if Stuck(s) {
      StuckBlocked(s);
      assert s.count >= 1;
      var i := SomebodyCanMove(b, k);
      assert false;
    }
  }
}
