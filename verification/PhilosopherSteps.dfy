/** Every step of the philosophers (philo.c) keeps the invariant of Philosophers.dfy. */
module PhilosopherSteps {
  import opened Sync
  import opened Philosophers

  lemma StartOk()
    ensures Inv(Start())
  {
  }

  /** A process stays where it is, or is handed `critical_m`. */
  predicate Moved(c: Pc, c': Pc) {
    c' == c || (c.Queued? && c' == In(First(c.sec)))
  }

  predicate SameStage(c: Pc, c': Pc) {
    (c == In(AddOpen) <==> c' == In(AddOpen)) && (c == In(AddLock) <==> c' == In(AddLock))
    && (c == In(AddExec) <==> c' == In(AddExec))
  }

  lemma RowKept(s: State, s': State, i: nat)
    requires Shape(s) && Shape(s') && i < MAX_PHILOSOPHERS && PhilOk(s, i)
    requires s'.count == s.count && s'.ph[i] == s.ph[i] && Moved(s.pc[i], s'.pc[i])
    requires SameStage(s.pc[MAIN], s'.pc[MAIN])
    requires GrantTarget(s) == Some(i) <==> GrantTarget(s') == Some(i)
    ensures PhilOk(s', i)
  {
  }

  lemma ExitCrit(s: State, t: Pid, next: Pc)
    requires Shape(s) && CritOk(s) && t <= MAIN && s.holder == Some(t) && !next.In? && !next.Queued?
    ensures var s' := Exit(s, t, next);
      && Shape(s') && CritOk(s') && GrantTarget(s') == None
      && s' == s.(crit := s'.crit, holder := s'.holder, pc := s'.pc)
      && s'.pc[t] == next
      && forall i: nat :: i <= MAIN && i != t ==> Moved(s.pc[i], s'.pc[i])
  {
    var s' := Exit(s, t, next);
    if s.crit.queue != [] {
      var w := s.crit.queue[0];
      assert w in s.crit.queue;
      assert forall u :: u in s'.crit.queue ==> u in s.crit.queue;
    }
  }

  lemma EnterCrit(s: State, t: Pid, sec: Section)
    requires Shape(s) && CritOk(s) && t <= MAIN && s.pc[t] == Want(sec)
    ensures var s' := Enter(s, t, sec);
      && Shape(s') && CritOk(s')
      && s' == s.(crit := s'.crit, holder := s'.holder, pc := s'.pc)
      && (s'.pc[t] == Queued(sec) || s'.pc[t] == In(First(sec)))
      && GrantTarget(s') == GrantTarget(s)
      && forall i: nat :: i <= MAIN && i != t ==> s'.pc[i] == s.pc[i]
  {
  }

  lemma SafeKept(s: State, s': State)
    requires Shape(s) && Shape(s') && Safe(s) && s'.count == s.count
    requires forall i: nat :: i < s.count && s'.ph[i].st == Eating ==> s.ph[i].st == Eating
    ensures Safe(s')
  {
  }

  lemma SafeGrown(s: State, s': State, i: nat)
    requires Shape(s) && Shape(s') && Safe(s) && i < s.count == s'.count && CanEat(s, i)
    requires forall j: nat :: j < s.count && j != i ==> s'.ph[j].st == s.ph[j].st
    ensures Safe(s')
  {
  }

  /** What a step leaves alone that moves neither `critical_m` nor the ring; it may touch `t` and `j`. */
  ghost predicate Inside(s: State, s': State, t: Pid, j: nat) requires Shape(s) {
    && Shape(s') && s' == s.(ph := s'.ph, pc := s'.pc)
    && forall i: nat :: i <= MAIN ==>
         && (i < MAX_PHILOSOPHERS ==> s'.ph[i].die == s.ph[i].die)
         && (i != t && i != j ==> s'.pc[i] == s.pc[i] && (i < MAX_PHILOSOPHERS ==> s'.ph[i] == s.ph[i]))
         && (s'.pc[i].In? <==> s.pc[i].In?) && (s'.pc[i].Queued? <==> s.pc[i].Queued?)
  }

  lemma InsideCrit(s: State, s': State, t: Pid, j: nat)
    requires Shape(s) && CritOk(s) && MainOk(s) && t < s.count && j < s.count && Inside(s, s', t, j)
    ensures CritOk(s') && MainOk(s')
  {
  }

  lemma InsideInv(s: State, s': State, t: Pid, j: nat)
    requires Inv(s) && t < s.count && j < s.count && Inside(s, s', t, j)
    requires Safe(s') && PhilOk(s', t) && PhilOk(s', j)
    requires GrantTarget(s) == GrantTarget(s') || GrantTarget(s) == None || GrantTarget(s) == Some(j)
    requires GrantTarget(s) == GrantTarget(s') || GrantTarget(s') == None || GrantTarget(s') == Some(j)
    ensures Inv(s')
  {
    InsideCrit(s, s', t, j);
    forall i: nat | i < MAX_PHILOSOPHERS
      ensures PhilOk(s', i)
    {
      assert PhilOk(s, i);
      if i != t && i != j { RowKept(s, s', i); }
    }
  }

  /** `t` runs at `pt` of a section. */
  predicate RunsAt(s: State, t: Pid, pt: Point) {
    Shape(s) && t < MAX_PHILOSOPHERS && s.holder == Some(t) && s.pc[t] == In(pt) && Alive(s, t) && PhilOk(s, t)
  }

  lemma DieCheckRow(s: State, t: Pid)
    requires RunsAt(s, t, DieCheck)
    ensures var s' := StepIn(s, t, DieCheck);
      Inside(s, s', t, t) && PhilOk(s', t) && GrantTarget(s) == GrantTarget(s') == None && s'.ph[t].st != Eating
  {
  }

  lemma TakeSetRow(s: State, t: Pid)
    requires RunsAt(s, t, TakeSet)
    ensures var s' := StepIn(s, t, TakeSet);
      Inside(s, s', t, t) && PhilOk(s', t) && GrantTarget(s) == GrantTarget(s') == None && s'.ph[t].st != Eating
  {
  }

  lemma PutSetRow(s: State, t: Pid)
    requires RunsAt(s, t, PutSet)
    ensures var s' := StepIn(s, t, PutSet);
      Inside(s, s', t, t) && PhilOk(s', t) && GrantTarget(s) == GrantTarget(s') == None && s'.ph[t].st != Eating
  {
  }

  lemma DieCheckOk(s: State, t: Pid)
    requires Inv(s) && t < MAX_PHILOSOPHERS && s.pc[t] == In(DieCheck)
    ensures Inv(StepIn(s, t, DieCheck))
  {
    assert PhilOk(s, t);
    DieCheckRow(s, t);
    SafeKept(s, StepIn(s, t, DieCheck));
    InsideInv(s, StepIn(s, t, DieCheck), t, t);
  }

  lemma TakeSetOk(s: State, t: Pid)
    requires Inv(s) && t < MAX_PHILOSOPHERS && s.pc[t] == In(TakeSet)
    ensures Inv(StepIn(s, t, TakeSet))
  {
    assert PhilOk(s, t);
    TakeSetRow(s, t);
    SafeKept(s, StepIn(s, t, TakeSet));
    InsideInv(s, StepIn(s, t, TakeSet), t, t);
  }

  lemma PutSetOk(s: State, t: Pid)
    requires Inv(s) && t < MAX_PHILOSOPHERS && s.pc[t] == In(PutSet)
    ensures Inv(StepIn(s, t, PutSet))
  {
    assert PhilOk(s, t);
    PutSetRow(s, t);
    SafeKept(s, StepIn(s, t, PutSet));
    InsideInv(s, StepIn(s, t, PutSet), t, t);
  }

  predicate TestPoint(s: State, t: Pid, j: nat, pt: Point) requires Shape(s) && t < MAX_PHILOSOPHERS {
    if pt.PutGrant? then s.pc[t] == In(PutTest(pt.right)) && j == Neighbour(t, s.count, pt.right)
    else pt == TakeGrant && s.pc[t] == In(TakeTest) && j == t
  }

  /** `t` is about to run `test(j)`, which will succeed. */
  predicate Tests(s: State, t: Pid, j: nat, pt: Point) {
    && Shape(s) && t < MAX_PHILOSOPHERS && s.holder == Some(t) && j < MAX_PHILOSOPHERS && TestPoint(s, t, j, pt)
    && Alive(s, t) && Alive(s, j) && PhilOk(s, t) && PhilOk(s, j) && CanEat(s, j) && (s.pc[j].In? ==> j == t)
  }

  lemma EatOwnRow(s: State, t: Pid)
    requires Tests(s, t, t, TakeGrant)
    ensures var s' := Goto(SetState(s, t, Eating), t, TakeGrant);
      Inside(s, s', t, t) && PhilOk(s', t) && GrantTarget(s) == None && GrantTarget(s') == Some(t)
  {
  }

  lemma EatOtherRow(s: State, t: Pid, j: nat, right: bool)
    requires Tests(s, t, j, PutGrant(right))
    ensures var s' := Goto(SetState(s, j, Eating), t, PutGrant(right));
      j != t && PhilOk(s', j) && GrantTarget(s) == None && GrantTarget(s') == Some(j)
  {
  }

  lemma EatTesterRow(s: State, t: Pid, j: nat, right: bool)
    requires Tests(s, t, j, PutGrant(right)) && j != t
    ensures var s' := Goto(SetState(s, j, Eating), t, PutGrant(right));
      Inside(s, s', t, j) && PhilOk(s', t)
  {
  }

  lemma TestsHere(s: State, t: Pid, j: nat, pt: Point)
    requires Inv(s) && t < MAX_PHILOSOPHERS && s.holder == Some(t) && j < s.count && CanEat(s, j)
    requires TestPoint(s, t, j, pt)
    ensures Tests(s, t, j, pt)
  {
    assert PhilOk(s, t) && PhilOk(s, j);
  }

  /** `test(j)` succeeds inside a section of `t`. */
  lemma EatOk(s: State, t: Pid, j: nat, pt: Point)
    requires Inv(s) && t < MAX_PHILOSOPHERS && s.holder == Some(t) && j < s.count && CanEat(s, j)
    requires TestPoint(s, t, j, pt)
    ensures Inv(Goto(SetState(s, j, Eating), t, pt))
  {
    TestsHere(s, t, j, pt);
    if pt == TakeGrant {
      EatOwnRow(s, t);
    } else {
      EatOtherRow(s, t, j, pt.right);
      EatTesterRow(s, t, j, pt.right);
    }
    var s' := Goto(SetState(s, j, Eating), t, pt);
    SafeGrown(s, s', j);
    InsideInv(s, s', t, j);
  }

  /** `test` fails: only the place in the program changes. */
  lemma SkipRow(s: State, t: Pid, pt: Point, next: Point)
    requires RunsAt(s, t, pt)
    requires (pt == TakeTest && next == TakeUnlock) || (pt.PutTest? && next == PutSignal(pt.right))
    ensures var s' := Goto(s, t, next);
      Inside(s, s', t, t) && PhilOk(s', t) && GrantTarget(s) == GrantTarget(s') == None
  {
  }

  lemma SkipOk(s: State, t: Pid, pt: Point, next: Point)
    requires Inv(s) && t < MAX_PHILOSOPHERS && s.pc[t] == In(pt)
    requires (pt == TakeTest && next == TakeUnlock) || (pt.PutTest? && next == PutSignal(pt.right))
    ensures Inv(Goto(s, t, next))
  {
    assert PhilOk(s, t);
    SkipRow(s, t, pt, next);
    SafeKept(s, Goto(s, t, next));
    InsideInv(s, Goto(s, t, next), t, t);
  }

  lemma TakeTestOk(s: State, t: Pid)
    requires Inv(s) && t < MAX_PHILOSOPHERS && s.pc[t] == In(TakeTest)
    ensures Inv(StepIn(s, t, TakeTest))
  {
    assert PhilOk(s, t);
    if CanEat(s, t) { EatOk(s, t, t, TakeGrant); } else { SkipOk(s, t, TakeTest, TakeUnlock); }
  }

  lemma PutTestOk(s: State, t: Pid, right: bool)
    requires Inv(s) && t < MAX_PHILOSOPHERS && s.pc[t] == In(PutTest(right))
    ensures Inv(StepIn(s, t, PutTest(right)))
  {
    assert PhilOk(s, t);
    var j := Neighbour(t, s.count, right);
    if CanEat(s, j) { EatOk(s, t, j, PutGrant(right)); } else { SkipOk(s, t, PutTest(right), PutSignal(right)); }
  }

  /** What unlocking j's mutex comes to when `j` is EATING: `j` passes, or will pass. */
  function Passed(s: State, j: nat): State requires Shape(s) && j < MAX_PHILOSOPHERS {
    if s.pc[j] == OwnQueued then
      s.(ph := s.ph[j := s.ph[j].(sem := Mutex(false, []))], pc := s.pc[j := Want(PutForks)])
    else s.(ph := s.ph[j := s.ph[j].(sem := Mutex(true, []))])
  }

  /** What signalling j's condition comes to. */
  function Roused(s: State, j: nat): State requires Shape(s) && j < MAX_PHILOSOPHERS {
    if s.pc[j] == Asleep(DieAgain) then
      s.(ph := s.ph[j := s.ph[j].(cond := [])], pc := s.pc[j := Want(DieAgain)])
    else s
  }

  lemma GrantEffect(s: State, j: nat)
    requires Shape(s) && j < MAX_PHILOSOPHERS && AliveOk(j, s.ph[j], s.pc[j], true)
    ensures Grant(s, j) == Passed(s, j)
  {
    var (m, w) := Unlock(s.ph[j].sem, {});
    if s.pc[j] == OwnQueued {
      assert s.ph[j].sem.queue[1..] == [];
      assert m == Mutex(false, []) && w == Some(j);
    } else {
      assert m == Mutex(true, []) && w == None;
    }
  }

  lemma SignalEffect(s: State, j: nat)
    requires Shape(s) && j < MAX_PHILOSOPHERS && AliveOk(j, s.ph[j], s.pc[j], GrantTarget(s) == Some(j))
    ensures SignalDie(s, j) == Roused(s, j)
  {
    var (q, w) := Signal(s.ph[j].cond);
    if s.pc[j] == Asleep(DieAgain) {
      assert s.ph[j].cond[1..] == [];
    } else {
      assert s.ph[j].(cond := []) == s.ph[j];
      assert s.ph[j := s.ph[j]] == s.ph;
    }
  }

  /** `s1` differs from `s` in the private mutex or condition of `j`, and in where `j` goes on. */
  ghost predicate OnlyAt(s: State, s1: State, j: nat) requires Shape(s) {
    Inside(s, s1, j, j) && forall i: nat :: i < MAX_PHILOSOPHERS ==> s1.ph[i].st == s.ph[i].st
  }

  lemma PassedOnly(s: State, j: nat)
    requires Shape(s) && j < MAX_PHILOSOPHERS
    ensures OnlyAt(s, Passed(s, j), j)
  {
  }

  lemma RousedOnly(s: State, j: nat)
    requires Shape(s) && j < MAX_PHILOSOPHERS
    ensures OnlyAt(s, Roused(s, j), j)
  {
  }

  lemma OwnGrantRow(s: State, t: Pid)
    requires RunsAt(s, t, TakeGrant)
    ensures var s' := Goto(Passed(s, t), t, TakeUnlock);
      PhilOk(s', t) && GrantTarget(s') == None
  {
  }

  /** `t` goes on, and leaves the row of `j` to the other lemmas. */
  lemma GranterRow(s: State, t: Pid, j: nat, right: bool)
    requires RunsAt(s, t, PutGrant(right)) && j == Neighbour(t, s.count, right) && j < MAX_PHILOSOPHERS
    requires PhilOk(s, j) && Alive(s, j) && (s.pc[j].In? ==> j == t)
    ensures var s' := Goto(Passed(s, j), t, PutSignal(right));
      j != t && GrantTarget(s) == Some(j) && GrantTarget(s') == None && PhilOk(s', t)
  {
  }

  lemma GrantedRow(s: State, t: Pid, j: nat, right: bool)
    requires RunsAt(s, t, PutGrant(right)) && j == Neighbour(t, s.count, right) && j < MAX_PHILOSOPHERS && j != t
    requires PhilOk(s, j) && Alive(s, j) && (s.pc[j].In? ==> j == t)
    requires GrantTarget(Goto(Passed(s, j), t, PutSignal(right))) == None
    ensures PhilOk(Goto(Passed(s, j), t, PutSignal(right)), j)
  {
  }

  lemma SignallerRow(s: State, t: Pid, j: nat, right: bool, pt: Point)
    requires RunsAt(s, t, PutSignal(right)) && j == Neighbour(t, s.count, right) && j < MAX_PHILOSOPHERS
    requires pt == PutUnlock || pt == PutTest(true)
    ensures var s' := Goto(Roused(s, j), t, pt);
      GrantTarget(s) == GrantTarget(s') == None && PhilOk(s', t)
  {
  }

  lemma SignalledRow(s: State, t: Pid, j: nat, right: bool, pt: Point)
    requires RunsAt(s, t, PutSignal(right)) && j == Neighbour(t, s.count, right) && j < MAX_PHILOSOPHERS && j != t
    requires PhilOk(s, j) && Alive(s, j) && (pt == PutUnlock || pt == PutTest(true))
    requires GrantTarget(s) == GrantTarget(Goto(Roused(s, j), t, pt)) == None
    ensures PhilOk(Goto(Roused(s, j), t, pt), j)
  {
  }

  /** Unlocking or signalling, after which `t` goes on at `pt`. */
  lemma PutOk(s: State, s1: State, t: Pid, j: nat, pt: Point)
    requires Inv(s) && t < s.count && s.holder == Some(t) && j < s.count && OnlyAt(s, s1, j) && s1.pc[t].In?
    requires GrantTarget(s) == None || GrantTarget(s) == Some(j)
    requires var s' := Goto(s1, t, pt); PhilOk(s', t) && PhilOk(s', j) && GrantTarget(s') == None
    ensures Inv(Goto(s1, t, pt))
  {
    SafeKept(s, Goto(s1, t, pt));
    InsideInv(s, Goto(s1, t, pt), t, j);
  }

  lemma TakeGrantOk(s: State, t: Pid)
    requires Inv(s) && t < MAX_PHILOSOPHERS && s.pc[t] == In(TakeGrant)
    ensures Inv(StepIn(s, t, TakeGrant))
  {
    assert PhilOk(s, t);
    GrantEffect(s, t);
    PassedOnly(s, t);
    OwnGrantRow(s, t);
    PutOk(s, Grant(s, t), t, t, TakeUnlock);
  }

  lemma PutGrantOk(s: State, t: Pid, right: bool)
    requires Inv(s) && t < MAX_PHILOSOPHERS && s.pc[t] == In(PutGrant(right))
    ensures Inv(StepIn(s, t, PutGrant(right)))
  {
    var j := Neighbour(t, s.count, right);
    assert PhilOk(s, t) && PhilOk(s, j);
    GrantEffect(s, j);
    PassedOnly(s, j);
    GranterRow(s, t, j, right);
    GrantedRow(s, t, j, right);
    PutOk(s, Grant(s, j), t, j, PutSignal(right));
  }

  lemma PutSignalOk(s: State, t: Pid, right: bool)
    requires Inv(s) && t < MAX_PHILOSOPHERS && s.pc[t] == In(PutSignal(right))
    ensures Inv(StepIn(s, t, PutSignal(right)))
  {
    var j := Neighbour(t, s.count, right);
    var pt := if right then PutUnlock else PutTest(true);
    assert PhilOk(s, t) && PhilOk(s, j);
    SignalEffect(s, j);
    RousedOnly(s, j);
    SignallerRow(s, t, j, right, pt);
    if j != t { SignalledRow(s, t, j, right, pt); }
    PutOk(s, SignalDie(s, j), t, j, pt);
  }

  /** Giving `critical_m` back, when the program of `t` may go on at `next`. */
  lemma ExitOk(s: State, t: Pid, next: Pc)
    requires Inv(s) && t < MAX_PHILOSOPHERS && s.holder == Some(t) && GrantTarget(s) == None
    requires s.pc[t] != In(DieClose) && s.pc[t] != In(DieSignal) && !next.In? && !next.Queued?
    requires if t < s.count then AliveOk(t, s.ph[t], next, false)
             else AwayOk(s.ph[t], next, false, t == s.count, false, Idle)
    ensures Inv(Exit(s, t, next))
  {
    var s' := Exit(s, t, next);
    ExitCrit(s, t, next);
    SafeKept(s, s');
    ExitMain(s, s', t);
    forall i: nat | i < MAX_PHILOSOPHERS
      ensures PhilOk(s', i)
    {
      assert PhilOk(s, i);
      if i != t { RowKept(s, s', i); }
    }
  }

  lemma ExitMain(s: State, s': State, t: Pid)
    requires Shape(s) && Shape(s') && MainOk(s) && t < MAX_PHILOSOPHERS
    requires s.pc[t] != In(DieClose) && s.pc[t] != In(DieSignal) && !s.pc[MAIN].In?
    requires s' == s.(crit := s'.crit, holder := s'.holder, pc := s'.pc)
    requires forall i: nat :: i <= MAIN && i != t ==> Moved(s.pc[i], s'.pc[i])
    ensures MainOk(s') && !Adding(s) && !Adding(s')
  {
  }

  lemma DieUnlockOk(s: State, t: Pid)
    requires Inv(s) && t < MAX_PHILOSOPHERS && s.pc[t] == In(DieUnlock)
    ensures Inv(StepIn(s, t, DieUnlock))
  {
    assert PhilOk(s, t);
    ExitOk(s, t, Off);
  }

  lemma KeepUnlockOk(s: State, t: Pid)
    requires Inv(s) && t < MAX_PHILOSOPHERS && s.pc[t] == In(KeepUnlock)
    ensures Inv(StepIn(s, t, KeepUnlock))
  {
    assert PhilOk(s, t);
    ExitOk(s, t, Want(TakeForks));
  }

  lemma TakeUnlockOk(s: State, t: Pid)
    requires Inv(s) && t < MAX_PHILOSOPHERS && s.pc[t] == In(TakeUnlock)
    ensures Inv(StepIn(s, t, TakeUnlock))
  {
    assert PhilOk(s, t);
    ExitOk(s, t, OwnLock);
  }

  lemma PutUnlockOk(s: State, t: Pid)
    requires Inv(s) && t < MAX_PHILOSOPHERS && s.pc[t] == In(PutUnlock)
    ensures Inv(StepIn(s, t, PutUnlock))
  {
    assert PhilOk(s, t);
    ExitOk(s, t, Want(ShouldDie));
  }

  lemma DieCloseOk(s: State, t: Pid)
    requires Inv(s) && t < MAX_PHILOSOPHERS && s.pc[t] == In(DieClose)
    ensures Inv(StepIn(s, t, DieClose))
  {
    var s' := StepIn(s, t, DieClose);
    assert PhilOk(s, t);
    SafeKept(s, s');
    forall i: nat | i < MAX_PHILOSOPHERS
      ensures PhilOk(s', i)
    {
      assert PhilOk(s, i);
      if i != t { RowKept(s, s', i); }
    }
  }

  lemma DieSignalOk(s: State, t: Pid)
    requires Inv(s) && t < MAX_PHILOSOPHERS && s.pc[t] == In(DieSignal)
    ensures Inv(StepIn(s, t, DieSignal))
  {
    var s' := StepIn(s, t, DieSignal);
    assert PhilOk(s, t);
    SafeKept(s, s');
    forall i: nat | i < MAX_PHILOSOPHERS
      ensures PhilOk(s', i)
    {
      assert PhilOk(s, i);
      if i != t { RowKept(s, s', i); }
    }
  }

  /** The last philosopher leaves: its two neighbours become adjacent. */
  lemma SafeShrunk(s: State, s': State)
    requires Shape(s) && Shape(s') && Safe(s) && s.count >= 1 && s'.count == s.count - 1
    requires s.ph[s.count - 1].st == Dying
    requires !(s.ph[Left(s.count - 1, s.count)].st == Eating && s.ph[Right(s.count - 1, s.count)].st == Eating)
    requires forall i: nat :: i < s'.count ==> s'.ph[i].st == s.ph[i].st
    ensures Safe(s')
  {
    forall i: nat | i < s'.count && s'.count >= 2
      ensures !(s'.ph[i].st == Eating && s'.ph[Right(i, s'.count)].st == Eating)
    {
      if i + 1 < s'.count { assert Right(i, s.count) == Right(i, s'.count); }
    }
  }

  lemma DieLeaveRows(s: State, s': State, t: Pid, i: nat)
    requires Shape(s) && Shape(s') && t < MAX_PHILOSOPHERS && i < MAX_PHILOSOPHERS && PhilOk(s, i)
    requires s.count >= 1 && t == s.count - 1 && s.pc[t] == In(DieLoop) && s.holder == Some(t) && PhilOk(s, t)
    requires i != t ==> !s.pc[i].In? && !s.pc[MAIN].In?
    requires s' == Goto(s.(ph := s.ph[t := s.ph[t].(die := false)], count := s.count - 1), t, DieClose)
    ensures PhilOk(s', i)
  {
  }

  lemma DieLeaveOk(s: State, t: Pid)
    requires Inv(s) && t < MAX_PHILOSOPHERS && s.pc[t] == In(DieLoop)
    requires !(s.ph[Left(t, s.count)].st == Eating && s.ph[Right(t, s.count)].st == Eating)
    ensures Inv(StepIn(s, t, DieLoop))
  {
    assert PhilOk(s, t);
    var s' := Goto(s.(ph := s.ph[t := s.ph[t].(die := false)], count := s.count - 1), t, DieClose);
    assert StepIn(s, t, DieLoop) == s';
    SafeShrunk(s, s');
    assert CritOk(s');
    assert MainOk(s');
    forall i: nat | i < MAX_PHILOSOPHERS
      ensures PhilOk(s', i)
    {
      assert PhilOk(s, i);
      DieLeaveRows(s, s', t, i);
    }
  }

  lemma DieSleepRow(s: State, s': State, t: Pid)
    requires RunsAt(s, t, DieLoop) && Shape(s') && GrantTarget(s') == None && !Adding(s) && !Adding(s')
    requires s' == s.(ph := s.ph[t := s.ph[t].(cond := s.ph[t].cond + [t])], crit := s'.crit,
                        holder := s'.holder, pc := s'.pc)
    requires s'.pc[t] == Asleep(DieAgain)
    ensures PhilOk(s', t)
  {
  }

  lemma DieSleepOk(s: State, t: Pid)
    requires Inv(s) && t < MAX_PHILOSOPHERS && s.pc[t] == In(DieLoop)
    requires s.ph[Left(t, s.count)].st == Eating && s.ph[Right(t, s.count)].st == Eating
    ensures Inv(StepIn(s, t, DieLoop))
  {
    var s' := StepIn(s, t, DieLoop);
    assert PhilOk(s, t);
    var s0 := s.(ph := s.ph[t := s.ph[t].(cond := s.ph[t].cond + [t])]);
    ExitCrit(s0, t, Asleep(DieAgain));
    SafeKept(s, s');
    ExitMain(s0, s', t);
    DieSleepRow(s, s', t);
    forall i: nat | i < MAX_PHILOSOPHERS
      ensures PhilOk(s', i)
    {
      assert PhilOk(s, i);
      if i != t { RowKept(s, s', i); }
    }
  }

  lemma EnterRow(s: State, t: Pid, sec: Section)
    requires Shape(s) && CritOk(s) && t < MAX_PHILOSOPHERS && s.pc[t] == Want(sec) && PhilOk(s, t)
    ensures PhilOk(Enter(s, t, sec), t)
  {
    EnterCrit(s, t, sec);
  }

  lemma EnterMain(s: State, s': State, t: Pid)
    requires Shape(s) && Shape(s') && MainOk(s) && t <= MAIN && s.pc[t].Want?
    requires s' == s.(crit := s'.crit, holder := s'.holder, pc := s.pc[t := s'.pc[t]])
    requires s'.pc[t] == Queued(s.pc[t].sec) || s'.pc[t] == In(First(s.pc[t].sec))
    ensures MainOk(s')
  {
  }

  lemma EnterOk(s: State, t: Pid, sec: Section)
    requires Inv(s) && t <= MAIN && s.pc[t] == Want(sec)
    ensures Inv(Enter(s, t, sec))
  {
    var s' := Enter(s, t, sec);
    EnterCrit(s, t, sec);
    SafeKept(s, s');
    EnterMain(s, s', t);
    forall i: nat | i < MAX_PHILOSOPHERS
      ensures PhilOk(s', i)
    {
      assert PhilOk(s, i);
      if i != t { RowKept(s, s', i); } else { EnterRow(s, t, sec); }
    }
  }

  lemma IdleOk(s: State, t: Pid, key: Command)
    requires Inv(s) && t == MAIN && s.pc[t] == Idle
    ensures Inv(Step(s, t, key))
  {
    var s' := s.(pc := s.pc[t := Want(CommandSection(key))]);
    SafeKept(s, s');
    forall i: nat | i < MAX_PHILOSOPHERS
      ensures PhilOk(s', i)
    {
      assert PhilOk(s, i);
      if i != t { RowKept(s, s', i); }
    }
  }

  lemma OwnLockRow(s: State, t: Pid, key: Command)
    requires Shape(s) && t < MAX_PHILOSOPHERS && s.pc[t] == OwnLock && s.holder != Some(t)
    requires Alive(s, t) && PhilOk(s, t)
    ensures var s' := Step(s, t, key);
      Inside(s, s', t, t) && PhilOk(s', t) && GrantTarget(s') == GrantTarget(s) && s'.ph[t].st == s.ph[t].st
  {
  }

  lemma OwnLockOk(s: State, t: Pid, key: Command)
    requires Inv(s) && t < MAX_PHILOSOPHERS && s.pc[t] == OwnLock
    ensures Inv(Step(s, t, key))
  {
    assert PhilOk(s, t);
    OwnLockRow(s, t, key);
    SafeKept(s, Step(s, t, key));
    InsideInv(s, Step(s, t, key), t, t);
  }

  /** A philosopher that does not eat comes to the end of the ring. */
  lemma SafeWidened(s: State, s': State)
    requires Shape(s) && Shape(s') && Safe(s) && s'.count == s.count + 1 && s'.ph[s.count].st != Eating
    requires forall i: nat :: i < s.count ==> s'.ph[i].st == s.ph[i].st
    ensures Safe(s')
  {
    forall i: nat | i < s'.count && s'.count >= 2
      ensures !(s'.ph[i].st == Eating && s'.ph[Right(i, s'.count)].st == Eating)
    {
      if i + 1 < s.count { assert Right(i, s.count) == Right(i, s'.count); }
    }
  }

  lemma AddCheckOk(s: State)
    requires Inv(s) && s.pc[MAIN] == In(AddCheck)
    ensures Inv(StepMainIn(s, AddCheck))
  {
    var s' := StepMainIn(s, AddCheck);
    if s.count < MAX_PHILOSOPHERS {
      assert PhilOk(s, s.count);
      SafeWidened(s, s');
    }
    forall i: nat | i < MAX_PHILOSOPHERS
      ensures PhilOk(s', i)
    {
      assert PhilOk(s, i);
    }
  }

  lemma AddOpenOk(s: State)
    requires Inv(s) && s.pc[MAIN] == In(AddOpen)
    ensures Inv(StepMainIn(s, AddOpen))
  {
    var s' := StepMainIn(s, AddOpen);
    if s.count > 0 { assert PhilOk(s, s.count - 1); }
    SafeKept(s, s');
    forall i: nat | i < MAX_PHILOSOPHERS
      ensures PhilOk(s', i)
    {
      assert PhilOk(s, i);
    }
  }

  lemma AddLockOk(s: State)
    requires Inv(s) && s.pc[MAIN] == In(AddLock)
    ensures Inv(StepMainIn(s, AddLock))
  {
    var s' := StepMainIn(s, AddLock);
    if s.count > 0 { assert PhilOk(s, s.count - 1); }
    SafeKept(s, s');
    forall i: nat | i < MAX_PHILOSOPHERS
      ensures PhilOk(s', i)
    {
      assert PhilOk(s, i);
    }
  }

  lemma AddExecOk(s: State)
    requires Inv(s) && s.pc[MAIN] == In(AddExec)
    ensures Inv(StepMainIn(s, AddExec))
  {
    var s' := StepMainIn(s, AddExec);
    if s.count > 0 { assert PhilOk(s, s.count - 1); }
    SafeKept(s, s');
    forall i: nat | i < MAX_PHILOSOPHERS
      ensures PhilOk(s', i)
    {
      assert PhilOk(s, i);
    }
  }

  lemma MarkRow(s: State, i: nat)
    requires Shape(s) && s.pc[MAIN] == In(RemoveMark) && s.holder == Some(MAIN) && s.count > 0
    requires i < MAX_PHILOSOPHERS && PhilOk(s, i)
    ensures PhilOk(StepMainIn(s, RemoveMark), i)
  {
  }

  lemma RemoveMarkOk(s: State)
    requires Inv(s) && s.pc[MAIN] == In(RemoveMark)
    ensures Inv(StepMainIn(s, RemoveMark))
  {
    var s' := StepMainIn(s, RemoveMark);
    SafeKept(s, s');
    forall i: nat | i < MAX_PHILOSOPHERS
      ensures PhilOk(s', i)
    {
      assert PhilOk(s, i);
      if s.count > 0 { MarkRow(s, i); } else { RowKept(s, s', i); }
    }
  }

  lemma MainExitOk(s: State)
    requires Inv(s) && (s.pc[MAIN] == In(MainUnlock) || s.pc[MAIN] == In(Paused))
    ensures Inv(Exit(s, MAIN, Idle))
  {
    var s' := Exit(s, MAIN, Idle);
    ExitCrit(s, MAIN, Idle);
    SafeKept(s, s');
    forall i: nat | i < MAX_PHILOSOPHERS
      ensures PhilOk(s', i)
    {
      assert PhilOk(s, i);
      RowKept(s, s', i);
    }
  }

  lemma RemoveLoopOk(s: State, c: nat)
    requires Inv(s) && s.pc[MAIN] == In(RemoveLoop(c))
    ensures Inv(StepMainIn(s, RemoveLoop(c)))
  {
    var s' := StepMainIn(s, RemoveLoop(c));
    if s.count == c { ExitCrit(s.(leaver := s.leaver + [MAIN]), MAIN, Asleep(RemoveAgain(c))); }
    SafeKept(s, s');
    forall i: nat | i < MAX_PHILOSOPHERS
      ensures PhilOk(s', i)
    {
      assert PhilOk(s, i);
      RowKept(s, s', i);
    }
  }
}
