/** Dining philosophers on a ring that grows and shrinks (philo.c), as a step
    relation.  A step is one kernel call, or one stretch of user code up to the
    next write of shared data; between two steps any other process may run. */
module Philosophers {
  import opened Arith
  import opened Sync

  const MAX_PHILOSOPHERS: nat := 16
  /** The process that runs listen_commands; philosopher `i` is process `i`. */
  const MAIN: Pid := MAX_PHILOSOPHERS

  datatype PState = Thinking | Hungry | Eating | Dying

  /** A reason to lock `critical_m`: where the process goes on once it has it. */
  datatype Section =
    | ShouldDie | DieAgain | TakeForks | PutForks
    | AddPhilosopher | RemovePhilosopher | RemoveAgain(cnt: nat) | Pause

  /** A point inside a section that is run while holding `critical_m`. */
  datatype Point =
    | DieCheck | DieLoop | DieClose | DieSignal | DieUnlock | KeepUnlock
    | TakeSet | TakeTest | TakeGrant | TakeUnlock
    | PutSet | PutTest(right: bool) | PutGrant(right: bool) | PutSignal(right: bool) | PutUnlock
    | AddCheck | AddOpen | AddLock | AddExec | MainUnlock
    | RemoveMark | RemoveLoop(cnt: nat) | Paused

  datatype Pc =
    | Off                    // no such process
    | Idle                   // listen_commands waits for a key
    | Want(sec: Section)     // about to lock critical_m
    | Queued(sec: Section)   // blocked in the queue of critical_m
    | In(pt: Point)          // holds critical_m
    | OwnLock                // take_forks, about to lock the own mutex
    | OwnQueued              // blocked in the queue of the own mutex
    | Asleep(sec: Section)   // blocked in a condition queue, will relock for `sec`

  datatype Phil = Phil(st: PState, die: bool, open: bool, sem: Mutex, cond: seq<Pid>)

  /** `holder` is bookkeeping: the process that was last given `critical_m`. */
  datatype State = State(count: nat, ph: seq<Phil>, crit: Mutex, holder: Option<Pid>,
                         leaver: seq<Pid>, pc: seq<Pc>)

  /** The macros LEFT and RIGHT for an index inside the ring; see RingMacros. */
  function Left(i: nat, n: nat): nat {
    if i > 0 then i - 1 else if n > 0 then n - 1 else 0
  }

  function Right(i: nat, n: nat): nat {
    if i + 1 < n then i + 1 else 0
  }

  function Neighbour(i: nat, n: nat, right: bool): nat {
    if right then Right(i, n) else Left(i, n)
  }

  lemma RingMacros(i: nat, n: nat)
    requires i < n
    ensures Left(i, n) == Rem(i + n - 1, n)
    ensures Right(i, n) == Rem(i + 1, n)
  {
    if i > 0 {
      assert Rem(i + n - 1, n) == Rem(i - 1, n);
    } else {
      assert Rem(n - 1, n) == n - 1;
    }
    assert i + 1 == n ==> Rem(i + 1, n) == Rem(0, n);
  }

  predicate Shape(s: State) {
    |s.ph| == MAX_PHILOSOPHERS && |s.pc| == MAX_PHILOSOPHERS + 1 && s.count <= MAX_PHILOSOPHERS
  }

  function First(sec: Section): Point {
    match sec
    case ShouldDie => DieCheck
    case DieAgain => DieLoop
    case TakeForks => TakeSet
    case PutForks => PutSet
    case AddPhilosopher => AddCheck
    case RemovePhilosopher => RemoveMark
    case RemoveAgain(c) => RemoveLoop(c)
    case Pause => Paused
  }

  /** Where a process goes on when a kernel call unblocks it. */
  function Resume(c: Pc): Pc {
    match c
    case Queued(sec) => In(First(sec))
    case OwnQueued => Want(PutForks)
    case Asleep(sec) => Want(sec)
    case _ => c
  }

  function Wake(s: State, w: Option<Pid>): State {
    if w.Some? && w.value < |s.pc| then s.(pc := s.pc[w.value := Resume(s.pc[w.value])]) else s
  }

  /** mutex_lock(critical_m) */
  function Enter(s: State, t: Pid, sec: Section): State
    requires t < |s.pc|
  {
    var (m, ok) := Lock(s.crit, t);
    if ok then s.(crit := m, holder := Some(t), pc := s.pc[t := In(First(sec))])
    else s.(crit := m, pc := s.pc[t := Queued(sec)])
  }

  /** mutex_unlock(critical_m), after which `t` goes on at `next`. */
  function Exit(s: State, t: Pid, next: Pc): State
    requires t < |s.pc|
  {
    var (m, w) := Unlock(s.crit, {});
    Wake(s.(crit := m, holder := w, pc := s.pc[t := next]), w)
  }

  function Goto(s: State, t: Pid, pt: Point): State
    requires t < |s.pc|
  {
    s.(pc := s.pc[t := In(pt)])
  }

  function SetState(s: State, i: nat, st: PState): State
    requires i < |s.ph|
  {
    s.(ph := s.ph[i := s.ph[i].(st := st)])
  }

  /** The condition of `test`. */
  predicate CanEat(s: State, i: nat)
    requires Shape(s) && i < MAX_PHILOSOPHERS
  {
    s.ph[i].st == Hungry && s.ph[Left(i, s.count)].st != Eating && s.ph[Right(i, s.count)].st != Eating
  }

  /** mutex_unlock(philo_array[i].mut) */
  function Grant(s: State, i: nat): State
    requires Shape(s) && i < MAX_PHILOSOPHERS
  {
    if !s.ph[i].open then s else
    var (m, w) := Unlock(s.ph[i].sem, {});
    Wake(s.(ph := s.ph[i := s.ph[i].(sem := m)]), w)
  }

  /** cond_signal(philo_array[i].cond_die) */
  function SignalDie(s: State, i: nat): State
    requires Shape(s) && i < MAX_PHILOSOPHERS
  {
    if !s.ph[i].open then s else
    var (q, w) := Signal(s.ph[i].cond);
    Wake(s.(ph := s.ph[i := s.ph[i].(cond := q)]), w)
  }

  function StepIn(s: State, t: Pid, pt: Point): State
    requires Shape(s) && t < MAX_PHILOSOPHERS
  {
    var l, r := Left(t, s.count), Right(t, s.count);
    match pt
    // should_die
    case DieCheck =>
      if s.ph[t].die then Goto(SetState(s, t, Dying), t, DieLoop) else Goto(s, t, KeepUnlock)
    case DieLoop =>
      if s.ph[l].st == Eating && s.ph[r].st == Eating then
        Exit(s.(ph := s.ph[t := s.ph[t].(cond := s.ph[t].cond + [t])]), t, Asleep(DieAgain))
      else
        Goto(s.(ph := s.ph[t := s.ph[t].(die := false)], count := if s.count > 0 then s.count - 1 else 0), t, DieClose)
    case DieClose => Goto(s.(ph := s.ph[t := s.ph[t].(open := false)]), t, DieSignal)
    case DieSignal =>
      var (q, w) := Signal(s.leaver);
      Goto(Wake(s.(leaver := q), w), t, DieUnlock)
    case DieUnlock => Exit(s, t, Off)
    case KeepUnlock => Exit(s, t, Want(TakeForks))
    // take_forks
    case TakeSet => Goto(SetState(s, t, Hungry), t, TakeTest)
    case TakeTest =>
      if CanEat(s, t) then Goto(SetState(s, t, Eating), t, TakeGrant) else Goto(s, t, TakeUnlock)
    case TakeGrant => Goto(Grant(s, t), t, TakeUnlock)
    case TakeUnlock => Exit(s, t, OwnLock)
    // put_forks
    case PutSet => Goto(SetState(s, t, Thinking), t, PutTest(false))
    case PutTest(right) =>
      var j := Neighbour(t, s.count, right);
      if CanEat(s, j) then Goto(SetState(s, j, Eating), t, PutGrant(right)) else Goto(s, t, PutSignal(right))
    case PutGrant(right) => Goto(Grant(s, Neighbour(t, s.count, right)), t, PutSignal(right))
    case PutSignal(right) =>
      Goto(SignalDie(s, Neighbour(t, s.count, right)), t, if right then PutUnlock else PutTest(true))
    case PutUnlock => Exit(s, t, Want(ShouldDie))
    case _ => s
  }

  function StepMainIn(s: State, pt: Point): State
    requires Shape(s)
  {
    var i := if s.count > 0 then s.count - 1 else 0;
    match pt
    // add_philosopher
    case AddCheck =>
      if s.count < MAX_PHILOSOPHERS then
        Goto(s.(ph := s.ph[s.count := s.ph[s.count].(die := false)], count := s.count + 1), MAIN, AddOpen)
      else Goto(s, MAIN, MainUnlock)
    case AddOpen =>
      Goto(s.(ph := s.ph[i := s.ph[i].(open := true, sem := Mutex(true, []), cond := [])]), MAIN, AddLock)
    case AddLock =>
      var (m, ok) := Lock(s.ph[i].sem, MAIN);
      if ok then Goto(s.(ph := s.ph[i := s.ph[i].(sem := m, st := Thinking)]), MAIN, AddExec)
      else s.(ph := s.ph[i := s.ph[i].(sem := m)], pc := s.pc[MAIN := OwnQueued])
    case AddExec => Goto(s.(pc := s.pc[i := Want(ShouldDie)]), MAIN, MainUnlock)
    case MainUnlock => Exit(s, MAIN, Idle)
    // remove_philosopher
    case RemoveMark =>
      if s.count > 0 then Goto(s.(ph := s.ph[i := s.ph[i].(die := true)]), MAIN, RemoveLoop(s.count))
      else Goto(s, MAIN, MainUnlock)
    case RemoveLoop(c) =>
      if s.count == c then Exit(s.(leaver := s.leaver + [MAIN]), MAIN, Asleep(RemoveAgain(c)))
      else Goto(s, MAIN, MainUnlock)
    // pause_philosophers, second key
    case Paused => Exit(s, MAIN, Idle)
    case _ => s
  }

  datatype Command = DoAdd | DoRemove | DoPause

  function CommandSection(c: Command): Section {
    match c case DoAdd => AddPhilosopher case DoRemove => RemovePhilosopher case DoPause => Pause
  }

  /** One step of process `t`; `key` is what listen_commands reads when it is idle.
      A blocked process does not step. */
  function Step(s: State, t: Pid, key: Command): State
    requires Shape(s) && t <= MAIN
  {
    match s.pc[t]
    case Idle => s.(pc := s.pc[t := Want(CommandSection(key))])
    case Want(sec) => Enter(s, t, sec)
    case OwnLock =>
      if t == MAIN then s else
      if !s.ph[t].open then s.(pc := s.pc[t := Want(PutForks)]) else
      var (m, ok) := Lock(s.ph[t].sem, t);
      s.(ph := s.ph[t := s.ph[t].(sem := m)], pc := s.pc[t := if ok then Want(PutForks) else OwnQueued])
    case In(pt) => if t == MAIN then StepMainIn(s, pt) else StepIn(s, t, pt)
    case _ => s
  }

  // ----- the invariant -----

  predicate Adding(s: State) requires Shape(s) {
    s.pc[MAIN] == In(AddOpen) || s.pc[MAIN] == In(AddLock) || s.pc[MAIN] == In(AddExec)
  }

  predicate Leaving(c: Pc) { c == In(DieClose) || c == In(DieSignal) || c == In(DieUnlock) }

  /** Philosopher `i` is on the ring and its process runs. */
  predicate Alive(s: State, i: nat) requires Shape(s) {
    i < s.count && !(Adding(s) && i == s.count - 1)
  }

  /** The philosopher that the holder of `critical_m` has just set to EATING,
      and whose mutex it is about to unlock. */
  function GrantTarget(s: State): Option<nat> requires Shape(s) {
    if s.holder.Some? && s.holder.value <= MAIN then
      var h := s.holder.value;
      match s.pc[h]
      case In(TakeGrant) => Some(h)
      case In(PutGrant(right)) => Some(Neighbour(h, s.count, right))
      case _ => None
    else None
  }

  /** Which states go with which point of a philosopher's program. */
  predicate Allowed(c: Pc, st: PState) {
    match c
    case Want(sec) => st == SectionState(sec)
    case Queued(sec) => st == SectionState(sec)
    case Asleep(sec) => sec == DieAgain && st == Dying
    case OwnLock => st == Hungry || st == Eating
    case OwnQueued => st == Hungry || st == Eating
    case In(pt) =>
      (match pt
       case DieLoop => st == Dying
       case TakeTest => st == Hungry
       case TakeGrant => st == Eating
       case TakeUnlock => st == Hungry || st == Eating
       case PutSet => st == Eating
       case _ => st == Thinking)
    case _ => false
  }

  function SectionState(sec: Section): PState {
    match sec case DieAgain => Dying case PutForks => Eating case _ => Thinking
  }

  predicate PhilosopherSection(sec: Section) {
    sec == ShouldDie || sec == DieAgain || sec == TakeForks || sec == PutForks
  }

  predicate PhilosopherPoint(pt: Point) {
    !(pt.AddCheck? || pt.AddOpen? || pt.AddLock? || pt.AddExec? || pt.MainUnlock? || pt.RemoveMark?
      || pt.RemoveLoop? || pt.Paused?)
  }

  predicate PhilosopherPc(c: Pc) {
    match c
    case Idle => false
    case Want(sec) => PhilosopherSection(sec)
    case Queued(sec) => PhilosopherSection(sec)
    case Asleep(sec) => sec == DieAgain
    case In(pt) => PhilosopherPoint(pt)
    case _ => true
  }

  predicate MainPc(c: Pc) {
    match c
    case Idle => true
    case Want(sec) => !PhilosopherSection(sec)
    case Queued(sec) => !PhilosopherSection(sec)
    case Asleep(sec) => sec.RemoveAgain?
    case In(pt) => !PhilosopherPoint(pt)
    case _ => false
  }

  /** Mutual exclusion on `critical_m`, and who is in its queue. */
  ghost predicate CritOk(s: State) requires Shape(s) {
    && (s.crit.unlocked <==> s.holder.None?)
    && (forall t: nat :: t <= MAIN ==> (s.pc[t].In? <==> s.holder == Some(t)))
    && (s.crit.unlocked ==> s.crit.queue == [])
    && (forall t: nat :: t <= MAIN ==> (s.pc[t].Queued? <==> t in s.crit.queue))
    && (s.holder.Some? ==> s.holder.value <= MAIN) && (forall t :: t in s.crit.queue ==> t <= MAIN)
    && (forall j, k :: 0 <= j < k < |s.crit.queue| ==> s.crit.queue[j] != s.crit.queue[k])
  }

  /** The private mutex of a running philosopher as a semaphore. */
  predicate SemOk(i: nat, p: Phil, c: Pc, granting: bool) {
    && p.sem.queue == (if c == OwnQueued then [i] else [])
    && (p.sem.unlocked <==> p.st == Eating && (c == In(TakeUnlock) || c == OwnLock) && !granting)
    && (c == OwnQueued && p.st == Eating ==> granting)
  }

  predicate AliveOk(i: nat, p: Phil, c: Pc, granting: bool) {
    && c != Off && !Leaving(c) && PhilosopherPc(c) && Allowed(c, p.st) && p.open
    && p.cond == (if c == Asleep(DieAgain) then [i] else [])
    && SemOk(i, p, c, granting)
    && (p.st == Dying ==> p.die)
    && (granting ==> p.st == Eating && (c == In(TakeGrant) || c == OwnLock || c == OwnQueued))
  }

  /** `adding`: the place is being set up by add_philosopher, which has got to `main`. */
  predicate AwayOk(p: Phil, c: Pc, granting: bool, first: bool, adding: bool, main: Pc) {
    && (c == Off || (first && Leaving(c)))
    && (p.st == Thinking || p.st == Dying) && !p.die
    && !granting
    && (adding && main != In(AddOpen) ==> p.open && p.cond == [] && p.sem == Mutex(main == In(AddLock), []))
    && (adding && main == In(AddExec) ==> p.st == Thinking)
  }

  predicate PhilOk(s: State, i: nat) requires Shape(s) && i < MAX_PHILOSOPHERS {
    var granting := GrantTarget(s) == Some(i);
    if Alive(s, i) then AliveOk(i, s.ph[i], s.pc[i], granting)
    else AwayOk(s.ph[i], s.pc[i], granting, i == s.count, i < s.count, s.pc[MAIN])
  }

  /** Main waits for philosopher `cnt - 1`, which is marked, or has just left. */
  predicate Awaited(s: State, cnt: nat) requires Shape(s) {
    || (s.count == cnt && cnt >= 1 && s.ph[cnt - 1].die)
    || s.count + 1 == cnt
  }

  predicate MainOk(s: State) requires Shape(s) {
    var c := s.pc[MAIN];
    && MainPc(c)
    && (Adding(s) ==> s.count >= 1)
    && s.leaver == (if c.Asleep? then [MAIN] else [])
    && ((c.Want? || c.Queued? || c.Asleep?) && c.sec.RemoveAgain? ==> Awaited(s, c.sec.cnt))
    && (c.In? && c.pt.RemoveLoop? ==> Awaited(s, c.pt.cnt))
    && (c.Asleep? && s.count != c.sec.cnt ==>
          s.count < MAX_PHILOSOPHERS && (s.pc[s.count] == In(DieClose) || s.pc[s.count] == In(DieSignal)))
    // only the last philosopher is marked, and only while main waits for it
    && (forall i: nat :: i < MAX_PHILOSOPHERS && s.ph[i].die ==>
          i == s.count - 1 &&
          (((c.Want? || c.Queued? || c.Asleep?) && c.sec == RemoveAgain(s.count)) || c == In(RemoveLoop(s.count))))
  }

  ghost predicate Local(s: State) {
    && Shape(s) && CritOk(s) && MainOk(s)
    && (forall i: nat :: i < MAX_PHILOSOPHERS ==> PhilOk(s, i))
  }

  /** No two neighbours eat. */
  ghost predicate Safe(s: State) requires Shape(s) {
    forall i: nat :: i < s.count && s.count >= 2 ==>
      !(s.ph[i].st == Eating && s.ph[Right(i, s.count)].st == Eating)
  }

  ghost predicate Inv(s: State) {
    Local(s) && Safe(s)
  }

  function Start(): State {
    State(0, seq(MAX_PHILOSOPHERS, _ => Phil(Thinking, false, false, Mutex(true, []), [])),
          Mutex(true, []), None, [], seq(MAX_PHILOSOPHERS + 1, t => if t == MAIN then Idle else Off))
  }
}
