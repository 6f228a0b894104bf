/**
 Switching uthreads on and off kernel threads: the thread_running handshake that
 keeps two kthreads off one uthread stack while a woken thread is still leaving
 the core it slept on.

 Each load, store or jump that another kthread can observe in between is a step.
 */
module ContextSwitch {

  type Tid = nat
  type Kid = nat

  /** Where a kthread is; the uthread it holds or is about to run is named in the phase. */
  datatype Phase =
    | Scheduling                      // runtime stack, no current uthread
    | Running(t: Tid)                 // executing uthread code on t's stack
    | Parking(t: Tid)                 // in enter_schedule on t's stack; t may already be awake elsewhere
    | Leaving(t: Tid)                 // runtime stack, thread_running of t not yet cleared
    | Ceding(t: Tid)                  // runtime stack in thread_finish_cede
    | Exiting(t: Tid)                 // runtime stack in thread_finish_exit
    | Spinning(t: Tid)                // jmp_thread waiting for t's stack
    | SpinDirect(t: Tid, next: Tid)   // jmp_thread_direct on t's stack, waiting for next's
    | Saving(t: Tid, next: Tid)       // owns both stacks, still on t's
    | Loaded(t: Tid, next: Tid)       // on next's stack, thread_running of t not yet cleared

  /**
   The list a uthread is linked on, or the kthread that took it off one. A uthread
   has a single list link, so it is on one list at most.
   */
  datatype Place = Blocked | Ready(k: Kid) | Owned(k: Kid) | Gone

  /**
   `flag` maps each thread whose thread_running flag is set to the kthread that has
   to clear it (the value is auxiliary: the code only sees whether the flag is set).
   `offAt` and `clock` record when each thread last committed to leaving its core.
   */
  datatype State = State(
    phase: map<Kid, Phase>, place: map<Tid, Place>, flag: map<Tid, Kid>, offAt: map<Tid, nat>, clock: nat)

  // ---------------------------------------------------------- what a phase means

  /** The uthread stack a kthread executes on. */
  predicate OnStack(p: Phase, t: Tid) {
    match p
    case Running(a) => t == a
    case Parking(a) => t == a
    case SpinDirect(a, _) => t == a
    case Saving(a, _) => t == a
    case Loaded(_, b) => t == b
    case _ => false
  }

  /** The uthread a kthread is switching off. */
  predicate Off(p: Phase, t: Tid) {
    match p
    case Parking(a) => t == a
    case Leaving(a) => t == a
    case SpinDirect(a, _) => t == a
    case Saving(a, _) => t == a
    case Loaded(a, _) => t == a
    case _ => false
  }

  /** The uthread a kthread has taken from a run queue, or is running. */
  predicate Owns(p: Phase, t: Tid) {
    match p
    case Running(a) => t == a
    case Ceding(a) => t == a
    case Exiting(a) => t == a
    case Spinning(a) => t == a
    case SpinDirect(_, b) => t == b
    case Saving(_, b) => t == b
    case Loaded(_, b) => t == b
    case _ => false
  }

  predicate WaitingFor(p: Phase, t: Tid) {
    (p.Spinning? && p.t == t) || (p.SpinDirect? && p.next == t)
  }

  /** The uthreads whose thread_running flag this kthread is responsible for. */
  predicate Holds(p: Phase, t: Tid) {
    Off(p, t) || (Owns(p, t) && !WaitingFor(p, t))
  }

  // ------------------------------------------------------------------- steps

  datatype Step =
    | Create(t: Tid)
    | Wake(t: Tid)
    | Park
    | Yield
    | PopDirect(t: Tid)
    | SlowPath
    | ClearSelf
    | PopSched(t: Tid)
    | Steal(victim: Kid, t: Tid)
    | SpinDone
    | SpinDirectDone
    | SwitchStack
    | FinishSwitch
    | StartCede
    | FinishCede
    | StartExit
    | FinishExit

  ghost predicate Enabled(s: State, k: Kid, step: Step) {
    && k in s.phase
    && var p := s.phase[k];
       match step
       case Create(t) => p.Running? && t !in s.place
       case Wake(t) => (p.Running? || p.Scheduling?) && t in s.place && s.place[t] == Blocked
       case Park => p.Running?
       case Yield => p.Running?
       case PopDirect(t) => p.Parking? && t in s.place && s.place[t] == Ready(k)
       case SlowPath => p.Parking?
       case ClearSelf => p.Leaving?
       case PopSched(t) => p.Scheduling? && t in s.place && s.place[t] == Ready(k)
       case Steal(victim, t) => p.Scheduling? && t in s.place && s.place[t] == Ready(victim)
       case SpinDone => p.Spinning? && p.t !in s.flag
       case SpinDirectDone => p.SpinDirect? && p.next !in s.flag
       case SwitchStack => p.Saving?
       case FinishSwitch => p.Loaded?
       case StartCede => p.Running?
       case FinishCede => p.Ceding?
       case StartExit => p.Running?
       case FinishExit => p.Exiting?
  }

  ghost function Goto(s: State, k: Kid, p: Phase): State {
    s.(phase := s.phase[k := p])
  }

  ghost function Put(s: State, t: Tid, at: Place): State {
    s.(place := s.place[t := at])
  }

  ghost function Clear(s: State, t: Tid): State {
    s.(flag := s.flag - {t})
  }

  ghost function Set(s: State, t: Tid, k: Kid): State {
    s.(flag := s.flag[t := k])
  }

  /** t commits to leaving its core now. */
  ghost function Stamp(s: State, t: Tid): State {
    s.(offAt := s.offAt[t := s.clock], clock := s.clock + 1)
  }

  ghost function Apply(s: State, k: Kid, step: Step): State
    requires Enabled(s, k, step)
  {
    var p := s.phase[k];
    match step
    case Create(t) => Put(Stamp(s, t), t, Ready(k))
    case Wake(t) => Put(s, t, Ready(k))
    case Park => Goto(Put(Stamp(s, p.t), p.t, Blocked), k, Parking(p.t))
    case Yield => Goto(Put(Stamp(s, p.t), p.t, Ready(k)), k, Parking(p.t))
    case PopDirect(t) => Goto(Put(s, t, Owned(k)), k, if t == p.t then Running(t) else SpinDirect(p.t, t))
    case SlowPath => Goto(s, k, Leaving(p.t))
    case ClearSelf => Goto(Clear(s, p.t), k, Scheduling)
    case PopSched(t) => Goto(Put(s, t, Owned(k)), k, Spinning(t))
    case Steal(victim, t) => Put(s, t, Ready(k))
    case SpinDone => Goto(Set(s, p.t, k), k, Running(p.t))
    case SpinDirectDone => Goto(Set(s, p.next, k), k, Saving(p.t, p.next))
    case SwitchStack => Goto(s, k, Loaded(p.t, p.next))
    case FinishSwitch => Goto(Clear(s, p.t), k, Running(p.next))
    case StartCede => Goto(s, k, Ceding(p.t))
    case FinishCede => Goto(Put(Stamp(Clear(s, p.t), p.t), p.t, Ready(k)), k, Scheduling)
    case StartExit => Goto(s, k, Exiting(p.t))
    case FinishExit => Goto(Put(Clear(s, p.t), p.t, Gone), k, Scheduling)
  }

  ghost predicate Init(s: State) {
    && (forall k :: k in s.phase ==> s.phase[k].Scheduling?)
    && (forall t :: t in s.place ==> !s.place[t].Owned?)
    && s.flag == map[]
    && s.offAt.Keys == s.place.Keys
    && (forall t :: t in s.offAt ==> s.offAt[t] < s.clock)
  }

  ghost predicate NextBy(s: State, k: Kid, step: Step, s': State) {
    Enabled(s, k, step) && s' == Apply(s, k, step)
  }

  ghost predicate Next(s: State, s': State) {
    exists k, step :: NextBy(s, k, step, s')
  }

  // ---------------------------------------------------------------- invariant

  /** Each thread a kthread runs or is about to run is owned by that kthread alone. */
  ghost predicate OwnersOk(s: State) {
    && (forall k, t :: k in s.phase && Owns(s.phase[k], t) ==> t in s.place && s.place[t] == Owned(k))
    && (forall t :: t in s.place && s.place[t].Owned? ==>
          s.place[t].k in s.phase && Owns(s.phase[s.place[t].k], t))
  }

  /** thread_running is set exactly for the threads some kthread has yet to let go of. */
  ghost predicate FlagsOk(s: State) {
    && (forall k, t :: k in s.phase && Holds(s.phase[k], t) ==> t in s.flag && s.flag[t] == k)
    && (forall t :: t in s.flag ==> t in s.place && s.flag[t] in s.phase && Holds(s.phase[s.flag[t]], t))
  }

  ghost predicate TimesOk(s: State) {
    && s.offAt.Keys == s.place.Keys
    && (forall t :: t in s.offAt ==> s.offAt[t] < s.clock)
  }

  /** A switch only ever waits for a thread that committed to leaving strictly earlier. */
  ghost predicate Ordered(s: State, k: Kid, t: Tid)
    requires k in s.phase
  {
    var p := s.phase[k];
    && (p.Parking? && t in s.place && s.place[t] == Ready(k) && t != p.t
        ==> p.t in s.offAt && t in s.offAt && s.offAt[t] < s.offAt[p.t])
    && (p.SpinDirect? && t == p.next ==> p.t in s.offAt && t in s.offAt && s.offAt[t] < s.offAt[p.t])
    && ((p.Saving? || p.Loaded?) && t == p.next ==> t != p.t)
  }

  ghost predicate WaitsAreOrdered(s: State) {
    forall k, t :: k in s.phase ==> Ordered(s, k, t)
  }

  ghost predicate Inv(s: State) {
    OwnersOk(s) && FlagsOk(s) && TimesOk(s) && WaitsAreOrdered(s)
  }

  // ------------------------------------------------------------ one step at a time

  /** The part of the invariant that speaks of kthread k. */
  ghost predicate LocalInv(s: State, k: Kid)
    requires k in s.phase
  {
    var p := s.phase[k];
    && (forall t :: Owns(p, t) ==> t in s.place && s.place[t] == Owned(k))
    && (forall t :: t in s.place && s.place[t] == Owned(k) ==> Owns(p, t))
    && (forall t :: Holds(p, t) ==> t in s.flag && s.flag[t] == k)
    && (forall t :: t in s.flag && s.flag[t] == k ==> t in s.place && Holds(p, t))
  }

  /** A step of k leaves the other kthreads' phases, threads and flags alone. */
  ghost predicate OnlyTouches(s: State, s': State, k: Kid) {
    && k in s.phase && k in s'.phase && s'.phase == s.phase[k := s'.phase[k]]
    && (forall t :: t in s.place ==> t in s'.place)
    && (forall t :: t in s.place && s.place[t].Owned? && s.place[t].k != k ==> s'.place[t] == s.place[t])
    && (forall t :: t in s'.place && (s'.place[t].Owned? || s'.place[t].Ready?) && s'.place[t].k != k
          ==> t in s.place && s.place[t] == s'.place[t])
    && (forall t :: t in s.flag && s.flag[t] != k ==> t in s'.flag && s'.flag[t] == s.flag[t])
    && (forall t :: t in s'.flag && s'.flag[t] != k ==> t in s.flag && s.flag[t] == s'.flag[t])
  }

  /** The only commit time a step may set is that of a new thread or of one k runs. */
  ghost predicate OnlyStamps(s: State, s': State, k: Kid, u: Tid) {
    || s'.offAt == s.offAt
    || (s'.offAt == s.offAt[u := s.clock] && (u in s.place ==> s.place[u] == Owned(k) && u in s.flag && s.flag[u] == k))
  }

  /** A step of k cannot disturb what another kthread waits for. */
  lemma ElsewhereOrdered(s: State, s': State, k: Kid, u: Tid)
    requires Inv(s) && OnlyTouches(s, s', k) && OnlyStamps(s, s', k, u)
    ensures forall j, t :: j in s'.phase && j != k ==> Ordered(s', j, t)
  {
    forall j, t | j in s'.phase && j != k
      ensures Ordered(s', j, t)
    {
      var p := s.phase[j];
      assert Ordered(s, j, t);
      if p.Parking? || p.SpinDirect? {
        assert Holds(p, p.t);
        assert p.SpinDirect? ==> Owns(p, p.next);
      }
    }
  }

  lemma MoveOwners(s: State, s': State, k: Kid)
    requires OwnersOk(s) && OnlyTouches(s, s', k) && LocalInv(s', k)
    ensures OwnersOk(s')
  {
    forall j, t | j in s'.phase && Owns(s'.phase[j], t)
      ensures t in s'.place && s'.place[t] == Owned(j)
    {
    }
  }

  lemma MoveFlags(s: State, s': State, k: Kid)
    requires FlagsOk(s) && OnlyTouches(s, s', k) && LocalInv(s', k)
    ensures FlagsOk(s')
  {
    forall j, t | j in s'.phase && Holds(s'.phase[j], t)
      ensures t in s'.flag && s'.flag[t] == j
    {
    }
  }

  /** It is enough to look at the kthread that moved. */
  lemma MoveInv(s: State, s': State, k: Kid, u: Tid)
    requires Inv(s) && OnlyTouches(s, s', k) && OnlyStamps(s, s', k, u)
    requires LocalInv(s', k) && TimesOk(s')
    requires forall t :: Ordered(s', k, t)
    ensures Inv(s')
  {
    MoveOwners(s, s', k);
    MoveFlags(s, s', k);
    ElsewhereOrdered(s, s', k, u);
  }

  /** Moving to a phase that owns and holds the same threads and waits for none. */
  lemma RelabelInv(s: State, k: Kid, p: Phase)
    requires Inv(s) && k in s.phase
    requires forall t :: Owns(p, t) == Owns(s.phase[k], t) && Holds(p, t) == Holds(s.phase[k], t)
    requires p.Leaving? || p.Ceding? || p.Exiting? || (p.Loaded? && s.phase[k] == Saving(p.t, p.next))
    ensures Inv(Goto(s, k, p))
  {
    assert p.Loaded? ==> Ordered(s, k, p.next);
    MoveInv(s, Goto(s, k, p), k, 0);
  }

  lemma CreateInv(s: State, k: Kid, t: Tid)
    requires Inv(s) && Enabled(s, k, Create(t))
    ensures Inv(Apply(s, k, Create(t)))
  {
    MoveInv(s, Apply(s, k, Create(t)), k, t);
  }

  lemma EnqueueInv(s: State, k: Kid, t: Tid)
    requires Inv(s) && k in s.phase && (s.phase[k].Running? || s.phase[k].Scheduling?)
    requires t in s.place && !s.place[t].Owned?
    ensures Inv(Put(s, t, Ready(k)))
  {
    MoveInv(s, Put(s, t, Ready(k)), k, t);
  }

  /** k puts the one thread it has elsewhere; its flag stays while k is still on its stack. */
  ghost predicate LetsGo(s: State, s': State, k: Kid, t: Tid, at: Place) {
    && k in s.phase && Owns(s.phase[k], t) && Holds(s.phase[k], t)
    && (s.phase[k] == Running(t) || s.phase[k] == Ceding(t) || s.phase[k] == Exiting(t))
    && (at == Blocked || at == Ready(k) || at == Gone)
    && s'.place == s.place[t := at]
    && (|| (s'.phase == s.phase[k := Parking(t)] && s'.flag == s.flag)
        || (s'.phase == s.phase[k := Scheduling] && s'.flag == s.flag - {t}))
  }

  lemma LetGoTouches(s: State, s': State, k: Kid, t: Tid, at: Place)
    requires LetsGo(s, s', k, t, at) && t in s.place && s.place[t] == Owned(k) && t in s.flag && s.flag[t] == k
    ensures OnlyTouches(s, s', k)
  {
  }

  lemma LetGoLocal(s: State, s': State, k: Kid, t: Tid, at: Place)
    requires OwnersOk(s) && FlagsOk(s) && LetsGo(s, s', k, t, at)
    ensures LocalInv(s', k)
  {
  }

  lemma LetGo(s: State, s': State, k: Kid, t: Tid, at: Place)
    requires Inv(s) && LetsGo(s, s', k, t, at)
    ensures OnlyTouches(s, s', k) && LocalInv(s', k)
  {
    LetGoTouches(s, s', k, t, at);
    LetGoLocal(s, s', k, t, at);
  }

  lemma CommitInv(s: State, k: Kid, at: Place)
    requires Inv(s) && k in s.phase && s.phase[k].Running? && (at == Blocked || at == Ready(k))
    ensures var t := s.phase[k].t; Inv(Goto(Put(Stamp(s, t), t, at), k, Parking(t)))
  {
    var t := s.phase[k].t;
    assert Owns(s.phase[k], t) && Holds(s.phase[k], t);
    var s' := Goto(Put(Stamp(s, t), t, at), k, Parking(t));
    LetGo(s, s', k, t, at);
    MoveInv(s, s', k, t);
  }

  lemma PopDirectInv(s: State, k: Kid, t: Tid)
    requires Inv(s) && Enabled(s, k, PopDirect(t))
    ensures Inv(Apply(s, k, PopDirect(t)))
  {
    assert Holds(s.phase[k], s.phase[k].t) && Ordered(s, k, t);
    MoveInv(s, Apply(s, k, PopDirect(t)), k, t);
  }

  lemma PopSchedInv(s: State, k: Kid, t: Tid)
    requires Inv(s) && Enabled(s, k, PopSched(t))
    ensures Inv(Apply(s, k, PopSched(t)))
  {
    MoveInv(s, Apply(s, k, PopSched(t)), k, t);
  }

  lemma ClearSelfInv(s: State, k: Kid)
    requires Inv(s) && Enabled(s, k, ClearSelf)
    ensures Inv(Apply(s, k, ClearSelf))
  {
    assert Holds(s.phase[k], s.phase[k].t);
    MoveInv(s, Apply(s, k, ClearSelf), k, 0);
  }

  lemma SpinDoneInv(s: State, k: Kid)
    requires Inv(s) && Enabled(s, k, SpinDone)
    ensures Inv(Apply(s, k, SpinDone))
  {
    assert Owns(s.phase[k], s.phase[k].t);
    MoveInv(s, Apply(s, k, SpinDone), k, 0);
  }

  lemma SpinDirectDoneInv(s: State, k: Kid)
    requires Inv(s) && Enabled(s, k, SpinDirectDone)
    ensures Inv(Apply(s, k, SpinDirectDone))
  {
    var p := s.phase[k];
    assert Owns(p, p.next) && Holds(p, p.t) && Ordered(s, k, p.next);
    MoveInv(s, Apply(s, k, SpinDirectDone), k, 0);
  }

  lemma FinishSwitchLocal(s: State, k: Kid)
    requires Inv(s) && Enabled(s, k, FinishSwitch)
    ensures LocalInv(Apply(s, k, FinishSwitch), k)
  {
    var p := s.phase[k];
    assert Owns(p, p.next) && Holds(p, p.t) && Holds(p, p.next) && Ordered(s, k, p.next);
  }

  lemma FinishSwitchInv(s: State, k: Kid)
    requires Inv(s) && Enabled(s, k, FinishSwitch)
    ensures Inv(Apply(s, k, FinishSwitch))
  {
    var p := s.phase[k];
    assert Holds(p, p.t);
    FinishSwitchLocal(s, k);
    MoveInv(s, Apply(s, k, FinishSwitch), k, 0);
  }

  lemma FinishCedeInv(s: State, k: Kid)
    requires Inv(s) && Enabled(s, k, FinishCede)
    ensures Inv(Apply(s, k, FinishCede))
  {
    var p := s.phase[k];
    assert Owns(p, p.t) && Holds(p, p.t);
    var s' := Apply(s, k, FinishCede);
    LetGo(s, s', k, p.t, Ready(k));
    MoveInv(s, s', k, p.t);
  }

  lemma FinishExitInv(s: State, k: Kid)
    requires Inv(s) && Enabled(s, k, FinishExit)
    ensures Inv(Apply(s, k, FinishExit))
  {
    var p := s.phase[k];
    assert Owns(p, p.t) && Holds(p, p.t);
    var s' := Apply(s, k, FinishExit);
    LetGo(s, s', k, p.t, Gone);
    MoveInv(s, s', k, p.t);
  }

  lemma StepInv(s: State, k: Kid, step: Step)
    requires Inv(s) && Enabled(s, k, step)
    ensures Inv(Apply(s, k, step))
  {
    var p := s.phase[k];
    match step
    case Create(t) => CreateInv(s, k, t);
    case Wake(t) => EnqueueInv(s, k, t);
    case Park => CommitInv(s, k, Blocked);
    case Yield => CommitInv(s, k, Ready(k));
    case PopDirect(t) => PopDirectInv(s, k, t);
    case SlowPath => RelabelInv(s, k, Leaving(p.t));
    case ClearSelf => ClearSelfInv(s, k);
    case PopSched(t) => PopSchedInv(s, k, t);
    case Steal(_, t) => EnqueueInv(s, k, t);
    case SpinDone => SpinDoneInv(s, k);
    case SpinDirectDone => SpinDirectDoneInv(s, k);
    case SwitchStack => RelabelInv(s, k, Loaded(p.t, p.next));
    case FinishSwitch => FinishSwitchInv(s, k);
    case StartCede => RelabelInv(s, k, Ceding(p.t));
    case FinishCede => FinishCedeInv(s, k);
    case StartExit => RelabelInv(s, k, Exiting(p.t));
    case FinishExit => FinishExitInv(s, k);
  }

  // --------------------------------------------------------------- whole runs

  ghost predicate IsRun(run: seq<State>) {
    && run != [] && Init(run[0])
    && forall i :: 0 <= i < |run| - 1 ==> Next(run[i], run[i + 1])
  }

  lemma {:induction false} RunsSatisfyInv(run: seq<State>, n: nat)
    requires IsRun(run) && n < |run|
    ensures Inv(run[n])
  {
    if n > 0 {
      RunsSatisfyInv(run, n - 1);
      var k, step :| NextBy(run[n - 1], k, step, run[n]);
      StepInv(run[n - 1], k, step);
    }
  }

  /** In every run, at most one kthread executes on a uthread's stack. */
  lemma StackExclusive(run: seq<State>, n: nat, k1: Kid, k2: Kid, t: Tid)
    requires IsRun(run) && n < |run|
    requires k1 in run[n].phase && k2 in run[n].phase
    requires OnStack(run[n].phase[k1], t) && OnStack(run[n].phase[k2], t)
    ensures k1 == k2
  {
    RunsSatisfyInv(run, n);
    assert Ordered(run[n], k1, t) && Ordered(run[n], k2, t);
    assert Holds(run[n].phase[k1], t) && Holds(run[n].phase[k2], t);
    assert run[n].flag[t] == k1;
  }

  // ------------------------------------------------------- no waiting in circles

  /** k1 spins on the flag of a thread that k2 still has to let go of. */
  ghost predicate WaitsOn(s: State, k1: Kid, k2: Kid) {
    && k1 in s.phase && k2 in s.phase
    && exists t :: WaitingFor(s.phase[k1], t) && t in s.flag && Holds(s.phase[k2], t)
  }

  ghost function Target(p: Phase): Tid
    requires p.Spinning? || p.SpinDirect?
  {
    if p.Spinning? then p.t else p.next
  }

  ghost predicate Stuck(s: State, k: Kid) {
    k in s.phase && (s.phase[k].Spinning? || s.phase[k].SpinDirect?) && Target(s.phase[k]) in s.flag
  }

  ghost predicate IsWaitChain(s: State, ks: seq<Kid>) {
    forall i :: 0 <= i < |ks| - 1 ==> WaitsOn(s, ks[i], ks[i + 1])
  }

  /** A kthread waited for is switching its thread off; if it is stuck too, it waits for an earlier one. */
  lemma WaitDescends(s: State, k1: Kid, k2: Kid)
    requires Inv(s) && WaitsOn(s, k1, k2)
    ensures Stuck(s, k1) && Target(s.phase[k1]) in s.offAt
    ensures Off(s.phase[k2], Target(s.phase[k1]))
    ensures Stuck(s, k2) ==>
              s.phase[k2].SpinDirect? && Target(s.phase[k2]) in s.offAt
              && s.offAt[Target(s.phase[k2])] < s.offAt[Target(s.phase[k1])]
  {
    var t :| WaitingFor(s.phase[k1], t) && t in s.flag && Holds(s.phase[k2], t);
    assert Owns(s.phase[k1], t);
    if Stuck(s, k2) && s.phase[k2].SpinDirect? {
      assert Ordered(s, k2, s.phase[k2].next);
    }
  }

  lemma {:induction false} ChainDescends(s: State, ks: seq<Kid>, i: nat, j: nat)
    requires Inv(s) && IsWaitChain(s, ks) && i < j < |ks| - 1
    ensures Stuck(s, ks[i]) && Stuck(s, ks[j])
    ensures Target(s.phase[ks[i]]) in s.offAt && Target(s.phase[ks[j]]) in s.offAt
    ensures s.offAt[Target(s.phase[ks[j]])] < s.offAt[Target(s.phase[ks[i]])]
    decreases j
  {
    assert WaitsOn(s, ks[j - 1], ks[j]) && WaitsOn(s, ks[j], ks[j + 1]);
    WaitDescends(s, ks[j], ks[j + 1]);
    WaitDescends(s, ks[j - 1], ks[j]);
    if i < j - 1 {
      ChainDescends(s, ks, i, j - 1);
    }
  }

  /** In every run, the spins never close a circle. */
  lemma NoWaitCycle(run: seq<State>, n: nat, ks: seq<Kid>)
    requires IsRun(run) && n < |run|
    requires |ks| >= 2 && IsWaitChain(run[n], ks)
    ensures ks[0] != ks[|ks| - 1]
  {
    var s := run[n];
    RunsSatisfyInv(run, n);
    if ks[0] == ks[|ks| - 1] {
      assert WaitsOn(s, ks[0], ks[1]);
      var round := ks + [ks[1]];
      forall i | 0 <= i < |round| - 1
        ensures WaitsOn(s, round[i], round[i + 1])
      {
        if i < |ks| - 1 {
          assert WaitsOn(s, ks[i], ks[i + 1]);
        }
      }
      ChainDescends(s, round, 0, |ks| - 1);
    }
  }

  /** The next step that brings the kthread closer to letting its thread go. */
  ghost function ReleaseStep(p: Phase): Step
    requires p.Parking? || p.Leaving? || p.SpinDirect? || p.Saving? || p.Loaded?
  {
    match p
    case Parking(_) => SlowPath
    case Leaving(_) => ClearSelf
    case SpinDirect(_, _) => SpinDirectDone
    case Saving(_, _) => SwitchStack
    case Loaded(_, _) => FinishSwitch
  }

  /** Every stuck kthread waits, directly or through others, for one that can take its next step now. */
  lemma {:induction false} StuckReachesProgress(s: State, k: Kid) returns (ks: seq<Kid>)
    requires Inv(s) && Stuck(s, k)
    ensures |ks| >= 2 && ks[0] == k && IsWaitChain(s, ks)
    ensures var last := ks[|ks| - 1];
            && last in s.phase && (exists t :: Off(s.phase[last], t))
            && Enabled(s, last, ReleaseStep(s.phase[last]))
    decreases s.offAt[Target(s.phase[k])]
  {
    var t := Target(s.phase[k]);
    var j := s.flag[t];
    assert WaitingFor(s.phase[k], t) && Holds(s.phase[j], t);
    assert WaitsOn(s, k, j);
    WaitDescends(s, k, j);
    if Stuck(s, j) {
      var rest := StuckReachesProgress(s, j);
      ks := [k] + rest;
      forall i | 0 <= i < |ks| - 1
        ensures WaitsOn(s, ks[i], ks[i + 1])
      {
        if i > 0 {
          assert WaitsOn(s, rest[i - 1], rest[i]);
        }
      }
    } else {
      ks := [k, j];
    }
  }
}
