/**
 Cancelling a timer while its handler may be running, and while it may be started again on another
 kthread. One entry; any number of kthreads, each with its own timer lock, heap and softirq thread;
 any number of cancelling threads. Every store to a word that is also read without the lock, and
 every such read, is a step of its own; what only the lock's holder sees goes with one of them.
 */
module TimerRace {
  import opened Wrappers

  type Kid = nat
  type Cid = nat

  /** A call of timer_start, which holds the lock of kthread k throughout. */
  datatype Starter =
    | NoStart
    | Begun(k: Kid)                        // localk is set
    | Armed(k: Kid)                        // armed is set, executing not cleared yet

  /** What the softirq thread of a kthread does with the entry. */
  datatype Softirq =
    | Took(a: nat)                         // out of the heap, executing set; armed not cleared, lock held
    | Runs(a: nat)                         // in the handler
    | Finishing(a: nat)                    // out of the handler, executing not cleared yet

  /** A call of timer_cancel; `arming` is the latest arming when it was made. */
  datatype Cancel =
    | Called(arming: nat)                  // about to load armed
    | SawArmed(arming: nat)                // about to load localk
    | AtLock(arming: nat, k: Kid)          // about to take the lock of k
    | Holding(arming: nat, k: Kid)         // has the lock of k and has seen armed
    | Waiting(arming: nat)                 // spinning while executing is set
    | Returned(arming: nat, ok: bool, latest: nat)

  /**
   The entry's words are `armed`, `executing` and `localk`. Armings are numbered; `queued` maps each
   arming that is in a heap to the kthread whose heap it is. `busy` has the softirq threads that are
   not done with the entry, `fired` the armings whose handler was entered, in order.
   */
  datatype State = State(
    armed: bool, executing: bool, localk: Kid,
    queued: map<nat, Kid>, start: Starter, busy: map<Kid, Softirq>,
    arming: nat, fired: seq<nat>, cancels: map<Cid, Cancel>)

  datatype Step =
    // timer_start
    | StartBegin(k: Kid) | StartArm | StartClear
    // timer_softirq_one
    | FireTake(k: Kid, a: nat) | FireDisarm(k: Kid) | HandlerReturns(k: Kid) | ClearExecuting(k: Kid)
    // timer_cancel and __timer_cancel
    | Call(c: Cid) | LoadArmed(c: Cid) | LoadLocalk(c: Cid) | LockCheck(c: Cid)
    | Remove(c: Cid, drop: Option<nat>) | LoadExecuting(c: Cid)

  ghost predicate LockFree(s: State, k: Kid) {
    && (s.start.NoStart? || s.start.k != k)
    && (k in s.busy ==> !s.busy[k].Took?)
    && (forall c :: c in s.cancels && s.cancels[c].Holding? ==> s.cancels[c].k != k)
  }

  /**
   What a removal under the lock of k takes out of that heap. With the entry's own kthread it is the
   entry; with another it is whatever slot the entry's index happens to name there.
   */
  predicate MayDrop(s: State, k: Kid, drop: Option<nat>) {
    match drop
    case Some(a) => a in s.queued && s.queued[a] == k
    case None => k != s.localk || forall a :: a in s.queued ==> s.queued[a] != k
  }

  ghost predicate Enabled(s: State, step: Step) {
    match step
    case StartBegin(k) => s.start.NoStart? && !s.armed && LockFree(s, k)
    case StartArm => s.start.Begun?
    case StartClear => s.start.Armed?
    case FireTake(k, a) => a in s.queued && s.queued[a] == k && k !in s.busy && LockFree(s, k)
    case FireDisarm(k) => k in s.busy && s.busy[k].Took?
    case HandlerReturns(k) => k in s.busy && s.busy[k].Runs?
    case ClearExecuting(k) => k in s.busy && s.busy[k].Finishing?
    case Call(c) => c !in s.cancels
    case LoadArmed(c) => c in s.cancels && s.cancels[c].Called?
    case LoadLocalk(c) => c in s.cancels && s.cancels[c].SawArmed?
    case LockCheck(c) => c in s.cancels && s.cancels[c].AtLock? && LockFree(s, s.cancels[c].k)
    case Remove(c, drop) => c in s.cancels && s.cancels[c].Holding? && MayDrop(s, s.cancels[c].k, drop)
    case LoadExecuting(c) => c in s.cancels && s.cancels[c].Waiting?
  }

  function Without(queued: map<nat, Kid>, drop: Option<nat>): map<nat, Kid> {
    if drop.Some? then queued - {drop.value} else queued
  }

  ghost function Do(s: State, step: Step): State
    requires Enabled(s, step)
  {
    match step
    case StartBegin(k) => s.(localk := k, start := Begun(k))
    case StartArm =>
      s.(armed := true, arming := s.arming + 1, queued := s.queued[s.arming + 1 := s.start.k],
         start := Armed(s.start.k))
    case StartClear => s.(executing := false, start := NoStart)
    case FireTake(k, a) => s.(executing := true, queued := s.queued - {a}, busy := s.busy[k := Took(a)])
    case FireDisarm(k) =>
      s.(armed := false, fired := s.fired + [s.busy[k].a], busy := s.busy[k := Runs(s.busy[k].a)])
    case HandlerReturns(k) => s.(busy := s.busy[k := Finishing(s.busy[k].a)])
    case ClearExecuting(k) => s.(executing := false, busy := s.busy - {k})
    case _ => DoCancel(s, step)
  }

  ghost function DoCancel(s: State, step: Step): State
    requires Enabled(s, step)
  {
    match step
    case Call(c) => s.(cancels := s.cancels[c := Called(s.arming)])
    case LoadArmed(c) =>
      var a := s.cancels[c].arming;
      s.(cancels := s.cancels[c := if s.armed then SawArmed(a) else Waiting(a)])
    case LoadLocalk(c) => s.(cancels := s.cancels[c := AtLock(s.cancels[c].arming, s.localk)])
    case LockCheck(c) =>
      var AtLock(a, k) := s.cancels[c];
      s.(cancels := s.cancels[c := if s.armed then Holding(a, k) else Waiting(a)])
    case Remove(c, drop) =>
      s.(armed := false, queued := Without(s.queued, drop),
         cancels := s.cancels[c := Returned(s.cancels[c].arming, true, s.arming)])
    case LoadExecuting(c) =>
      if s.executing then s
      else s.(cancels := s.cancels[c := Returned(s.cancels[c].arming, false, s.arming)])
    case _ => s
  }

  const INIT := State(false, false, 0, map[], NoStart, map[], 0, [], map[])

  // --------------------------------------------------------------------- every run

  /** What holds whatever callers do: an arming is in one place, and once fired in none. */
  ghost predicate Inv(s: State) {
    && FiredOk(s)
    && (forall a :: a in s.queued ==> a <= s.arming)
    && (forall k :: k in s.busy ==> BusyOk(s, k))
    && (forall j, k :: j in s.busy && k in s.busy && s.busy[j].Took? && s.busy[j] == s.busy[k] ==> j == k)
    && (forall c :: c in s.cancels ==> s.cancels[c].arming <= s.arming)
    && (s.arming == 0 ==> Fresh(s))
  }

  ghost predicate FiredOk(s: State) {
    && (forall i, j :: 0 <= i < j < |s.fired| ==> s.fired[i] != s.fired[j])
    && (forall i :: 0 <= i < |s.fired| ==> s.fired[i] <= s.arming && s.fired[i] !in s.queued)
  }

  ghost predicate BusyOk(s: State, k: Kid)
    requires k in s.busy
  {
    && s.busy[k].a <= s.arming && s.busy[k].a !in s.queued
    && (s.busy[k].Took? ==> s.busy[k].a !in s.fired)
  }

  /** Before the first arming no cancel gets past its first load. */
  ghost predicate Fresh(s: State) {
    && !s.armed && s.queued == map[] && s.busy == map[] && !s.start.Armed?
    && forall c :: c in s.cancels ==> !s.cancels[c].SawArmed? && !s.cancels[c].AtLock? && !s.cancels[c].Holding?
  }

  lemma FireStepInv(s: State, step: Step)
    requires Inv(s) && Enabled(s, step)
    requires step.FireTake? || step.FireDisarm? || step.HandlerReturns? || step.ClearExecuting?
    ensures Inv(Do(s, step))
  {
  }

  lemma StepInv(s: State, step: Step)
    requires Inv(s) && Enabled(s, step)
    ensures Inv(Do(s, step))
  {
    if step.FireTake? || step.FireDisarm? || step.HandlerReturns? || step.ClearExecuting? {
      FireStepInv(s, step);
    }
  }

  // -------------------------------------------------------------- runs that start in time

  /**
   Starting the entry on k is in time: no handler of it is running, none that is done has yet to clear
   the flag on another kthread, and no cancel is about to take the lock of another kthread.
   */
  ghost predicate Safe(s: State, k: Kid) {
    && (forall j :: j in s.busy ==> s.busy[j].Finishing? && j == k)
    && (forall c :: c in s.cancels && s.cancels[c].AtLock? ==> s.cancels[c].k == k)
  }

  ghost predicate InTime(s: State, step: Step) {
    step.StartBegin? ==> Safe(s, step.k)
  }

  /** The handler of this arming is not running and never will. */
  predicate Over(s: State, a: nat) {
    a <= s.arming && a !in s.queued && forall k :: k in s.busy ==> s.busy[k] != Took(a) && s.busy[k] != Runs(a)
  }

  /** Everything about the entry happens on the kthread that localk names. */
  ghost predicate HomeOk(s: State) {
    && (forall a :: a in s.queued ==> a == s.arming && s.queued[a] == s.localk && s.armed)
    && (forall k :: k in s.busy ==> k == s.localk && PhaseOk(s, s.busy[k]))
    && (s.armed ==> s.arming in s.queued || (s.localk in s.busy && s.busy[s.localk].Took?))
    && (s.executing ==> s.localk in s.busy)
    && (s.start.Begun? ==> s.start.k == s.localk && !s.armed)
    && (s.start.Armed? ==> s.start.k == s.localk && s.armed && s.arming in s.queued)
  }

  predicate PhaseOk(s: State, i: Softirq) {
    match i
    case Took(a) => a == s.arming && s.armed && s.executing && s.start.NoStart?
    case Runs(a) => a == s.arming && !s.armed && s.executing && s.start.NoStart?
    case Finishing(_) => true
  }

  ghost predicate CancelOk(s: State, c: Cancel) {
    match c
    case AtLock(_, k) => k == s.localk
    case Holding(_, k) => k == s.localk && s.armed && s.arming in s.queued && s.start.NoStart?
    case Waiting(a) => a !in s.queued && forall k :: k in s.busy ==> s.busy[k] != Took(a)
    case Returned(a, ok, latest) => Over(s, a) && (ok ==> Over(s, latest) && latest !in s.fired)
    case _ => true
  }

  ghost predicate TimelyInv(s: State) {
    && Inv(s) && HomeOk(s)
    && (forall c :: c in s.cancels ==> CancelOk(s, s.cancels[c]))
    && (forall c, d :: c in s.cancels && d in s.cancels && s.cancels[c].Holding? && s.cancels[d].Holding? ==> c == d)
  }

  predicate StarterStep(step: Step) {
    step.StartBegin? || step.StartArm? || step.StartClear?
  }

  predicate SoftirqStep(step: Step) {
    step.FireTake? || step.FireDisarm? || step.HandlerReturns? || step.ClearExecuting?
  }

  lemma StarterTimely(s: State, step: Step)
    requires TimelyInv(s) && Enabled(s, step) && InTime(s, step) && StarterStep(step)
    ensures TimelyInv(Do(s, step))
  {
    StepInv(s, step);
  }

  lemma SoftirqTimely(s: State, step: Step)
    requires TimelyInv(s) && Enabled(s, step) && SoftirqStep(step)
    ensures TimelyInv(Do(s, step))
  {
    StepInv(s, step);
  }

  /** A cancel that gets no lock moves on. */
  lemma CancelMoves(s: State, c: Cid, next: Cancel)
    requires TimelyInv(s) && CancelOk(s, next) && next.arming <= s.arming && !next.Holding?
    requires s.arming == 0 ==> !next.SawArmed? && !next.AtLock?
    ensures TimelyInv(s.(cancels := s.cancels[c := next]))
  {
  }

  lemma LoadTimely(s: State, step: Step)
    requires TimelyInv(s) && Enabled(s, step)
    requires step.Call? || step.LoadArmed? || step.LoadLocalk? || step.LoadExecuting?
    ensures TimelyInv(Do(s, step))
  {
    var s' := Do(s, step);
    if s' != s {
      if step.LoadExecuting? {
        assert CancelOk(s, s.cancels[step.c]);
      }
      CancelMoves(s, step.c, s'.cancels[step.c]);
    }
  }

  lemma LockCheckTimely(s: State, c: Cid)
    requires TimelyInv(s) && Enabled(s, LockCheck(c))
    ensures TimelyInv(Do(s, LockCheck(c)))
  {
    StepInv(s, LockCheck(c));
  }

  /** With the entry's own lock a removal takes exactly the latest arming out of its heap. */
  lemma RemoveTimely(s: State, c: Cid, drop: Option<nat>)
    requires TimelyInv(s) && Enabled(s, Remove(c, drop))
    ensures drop == Some(s.arming) && TimelyInv(Do(s, Remove(c, drop)))
  {
    StepInv(s, Remove(c, drop));
    assert CancelOk(s, s.cancels[c]);
  }

  /** Every step that starts the entry only in time keeps all of it on one kthread. */
  lemma TimelyStepInv(s: State, step: Step)
    requires TimelyInv(s) && Enabled(s, step) && InTime(s, step)
    ensures TimelyInv(Do(s, step))
  {
    if StarterStep(step) {
      StarterTimely(s, step);
    } else if SoftirqStep(step) {
      SoftirqTimely(s, step);
    } else if step.LockCheck? {
      LockCheckTimely(s, step.c);
    } else if step.Remove? {
      RemoveTimely(s, step.c, step.drop);
    } else {
      LoadTimely(s, step);
    }
  }

  // --------------------------------------------------------------------------- runs

  ghost predicate StepsTo(s: State, step: Step, s': State) {
    Enabled(s, step) && s' == Do(s, step)
  }

  ghost predicate IsRun(run: seq<State>, steps: seq<Step>) {
    && |run| == |steps| + 1
    && run[0] == INIT
    && forall i :: 0 <= i < |steps| ==> StepsTo(run[i], steps[i], run[i + 1])
  }

  ghost predicate StartsInTime(run: seq<State>, steps: seq<Step>)
    requires |run| == |steps| + 1
  {
    forall i :: 0 <= i < |steps| ==> InTime(run[i], steps[i])
  }

  /** The entry is started once at most. */
  ghost predicate NeverRestarted(steps: seq<Step>) {
    forall i, j :: 0 <= i < j < |steps| && steps[i].StartBegin? ==> !steps[j].StartBegin?
  }

  lemma {:induction false} RunsSatisfyInv(run: seq<State>, steps: seq<Step>, n: nat)
    requires IsRun(run, steps) && n < |run|
    ensures Inv(run[n])
    decreases n
  {
    if n > 0 {
      RunsSatisfyInv(run, steps, n - 1);
      assert StepsTo(run[n - 1], steps[n - 1], run[n - 1 + 1]);
      StepInv(run[n - 1], steps[n - 1]);
    }
  }

  lemma {:induction false} RunsSatisfyTimelyInv(run: seq<State>, steps: seq<Step>, n: nat)
    requires IsRun(run, steps) && StartsInTime(run, steps) && n < |run|
    ensures TimelyInv(run[n])
    decreases n
  {
    if n > 0 {
      RunsSatisfyTimelyInv(run, steps, n - 1);
      assert StepsTo(run[n - 1], steps[n - 1], run[n - 1 + 1]);
      TimelyStepInv(run[n - 1], steps[n - 1]);
    }
  }

  /** In every run, whatever callers do, each arming fires at most once. */
  lemma FiresAtMostOnce(run: seq<State>, steps: seq<Step>, n: nat, i: nat, j: nat)
    requires IsRun(run, steps) && n < |run| && i < |run[n].fired| && j < |run[n].fired|
    requires run[n].fired[i] == run[n].fired[j]
    ensures i == j
  {
    RunsSatisfyInv(run, steps, n);
  }

  /** A call that has returned stays returned. */
  lemma {:induction false} ReturnedStays(run: seq<State>, steps: seq<Step>, n: nat, m: nat, c: Cid)
    requires IsRun(run, steps) && n <= m < |run| && c in run[n].cancels && run[n].cancels[c].Returned?
    ensures c in run[m].cancels && run[m].cancels[c] == run[n].cancels[c]
    decreases m
  {
    if n < m {
      ReturnedStays(run, steps, n, m - 1, c);
      assert StepsTo(run[m - 1], steps[m - 1], run[m - 1 + 1]);
    }
  }

  /** Some kthread is in the handler of this arming. */
  predicate InHandler(s: State, a: nat) {
    exists k :: k in s.busy && s.busy[k] == Runs(a)
  }

  /**
   In every run that starts the entry only in time: once a cancel has returned, the handler of the
   arming it was called for does not run then or later, and after a true answer the handler of the
   arming it took away has not been entered and never will be.
   */
  lemma CancelGuarantee(run: seq<State>, steps: seq<Step>, n: nat, m: nat, c: Cid)
    requires IsRun(run, steps) && StartsInTime(run, steps) && n <= m < |run|
    requires c in run[n].cancels && run[n].cancels[c].Returned?
    ensures var r := run[n].cancels[c];
            !InHandler(run[m], r.arming) && (r.ok ==> r.latest !in run[m].fired)
  {
    ReturnedStays(run, steps, n, m, c);
    RunsSatisfyTimelyInv(run, steps, m);
    assert CancelOk(run[m], run[m].cancels[c]);
  }

  lemma {:induction false} NotStartedYet(run: seq<State>, steps: seq<Step>, n: nat)
    requires IsRun(run, steps) && n < |run| && forall i :: 0 <= i < n ==> !steps[i].StartBegin?
    ensures run[n].arming == 0 && run[n].start.NoStart?
    decreases n
  {
    if n > 0 {
      NotStartedYet(run, steps, n - 1);
      RunsSatisfyInv(run, steps, n - 1);
      assert StepsTo(run[n - 1], steps[n - 1], run[n - 1 + 1]);
    }
  }

  /** The first start is always in time. */
  lemma OneStartIsInTime(run: seq<State>, steps: seq<Step>)
    requires IsRun(run, steps) && NeverRestarted(steps)
    ensures StartsInTime(run, steps)
  {
    forall i | 0 <= i < |steps|
      ensures InTime(run[i], steps[i])
    {
      if steps[i].StartBegin? {
        NotStartedYet(run, steps, i);
        RunsSatisfyInv(run, steps, i);
      }
    }
  }

  /** The same for an entry that is not started again, whatever else happens. */
  lemma NotRestartedGuarantee(run: seq<State>, steps: seq<Step>, n: nat, m: nat, c: Cid)
    requires IsRun(run, steps) && NeverRestarted(steps) && n <= m < |run|
    requires c in run[n].cancels && run[n].cancels[c].Returned?
    ensures var r := run[n].cancels[c];
            !InHandler(run[m], r.arming) && (r.ok ==> r.latest !in run[m].fired)
  {
    OneStartIsInTime(run, steps);
    CancelGuarantee(run, steps, n, m, c);
  }

  // ------------------------------------------------------- and only under that condition

  /** A cancel has returned although the handler runs, or has answered true although it ran. */
  ghost predicate Violated(s: State) {
    exists c :: c in s.cancels && Broken(s, s.cancels[c])
  }

  ghost predicate Broken(s: State, c: Cancel) {
    c.Returned? && (InHandler(s, c.arming) || (c.ok && c.latest in s.fired))
  }

  /** A finite sequence of steps that start the entry only in time, from one state to another. */
  ghost predicate Leads(s: State, steps: seq<Step>, s': State)
    decreases |steps|
  {
    if steps == [] then s == s'
    else Enabled(s, steps[0]) && InTime(s, steps[0]) && Leads(Do(s, steps[0]), steps[1..], s')
  }

  ghost predicate Reaches(s: State, s': State) {
    exists steps :: Leads(s, steps, s')
  }

  lemma {:induction false} LeadsOn(s: State, steps: seq<Step>, s': State, step: Step)
    requires Leads(s, steps, s') && Enabled(s', step) && InTime(s', step)
    ensures Leads(s, steps + [step], Do(s', step))
    decreases |steps|
  {
    if steps == [] {
      assert ([step])[1..] == [];
      assert Leads(Do(s', step), [], Do(s', step));
    } else {
      LeadsOn(Do(s, steps[0]), steps[1..], s', step);
      assert (steps + [step])[1..] == steps[1..] + [step];
    }
  }

  lemma ReachesSelf(s: State)
    ensures Reaches(s, s)
  {
    assert Leads(s, [], s);
  }

  lemma ReachStep(s: State, s': State, step: Step) returns (next: State)
    requires Reaches(s, s') && Enabled(s', step) && InTime(s', step)
    ensures next == Do(s', step) && Reaches(s, next)
  {
    var steps :| Leads(s, steps, s');
    LeadsOn(s, steps, s', step);
    next := Do(s', step);
  }

  lemma {:induction false} TimelyLeads(s: State, steps: seq<Step>, s': State)
    requires TimelyInv(s) && Leads(s, steps, s')
    ensures TimelyInv(s')
    decreases |steps|
  {
    if steps != [] {
      TimelyStepInv(s, steps[0]);
      TimelyLeads(Do(s, steps[0]), steps[1..], s');
    }
  }

  lemma TimelyMeansKept(s: State)
    requires TimelyInv(s)
    ensures !Violated(s)
  {
    forall c | c in s.cancels
      ensures !Broken(s, s.cancels[c])
    {
      assert CancelOk(s, s.cancels[c]);
    }
  }

  /** In a state kept in time with the entry not armed, nobody holds a timer lock for it. */
  lemma LocksAreFree(s: State, k: Kid)
    requires TimelyInv(s) && !s.armed && s.start.NoStart?
    ensures LockFree(s, k)
  {
    forall c | c in s.cancels
      ensures !s.cancels[c].Holding?
    {
      assert CancelOk(s, s.cancels[c]);
    }
  }

  /** The rest of a start. */
  lemma FinishStart(s0: State, s: State) returns (next: State)
    requires Reaches(s0, s) && s.start.Begun?
    ensures Reaches(s0, next)
    ensures next == s.(armed := true, arming := s.arming + 1, queued := s.queued[s.arming + 1 := s.start.k],
                       executing := false, start := NoStart)
  {
    next := ReachStep(s0, s, StartArm);
    next := ReachStep(s0, next, StartClear);
  }

  /** An arming fires. */
  lemma Fires(s0: State, s: State, k: Kid, a: nat) returns (next: State)
    requires Reaches(s0, s) && Enabled(s, FireTake(k, a))
    ensures Reaches(s0, next)
    ensures next == s.(armed := false, executing := true, queued := s.queued - {a}, fired := s.fired + [a],
                       busy := s.busy[k := Runs(a)])
  {
    next := ReachStep(s0, s, FireTake(k, a));
    next := ReachStep(s0, next, FireDisarm(k));
  }

  /** A handler returns and its flag is cleared. */
  lemma HandlerEnds(s0: State, s: State, k: Kid) returns (next: State)
    requires Reaches(s0, s) && k in s.busy && s.busy[k].Runs?
    ensures Reaches(s0, next) && next == s.(executing := false, busy := s.busy - {k})
  {
    next := ReachStep(s0, s, HandlerReturns(k));
    next := ReachStep(s0, next, ClearExecuting(k));
    assert s.busy[k := Finishing(s.busy[k].a)] - {k} == s.busy - {k};
  }

  /** A cancel that is called now, sees the entry not armed and waits for its handler. */
  lemma CancelWaits(s0: State, s: State, c: Cid) returns (next: State)
    requires Reaches(s0, s) && c !in s.cancels && !s.armed
    ensures Reaches(s0, next) && next == s.(cancels := s.cancels[c := Waiting(s.arming)])
  {
    next := ReachStep(s0, s, Call(c));
    next := ReachStep(s0, next, LoadArmed(c));
    assert s.cancels[c := Called(s.arming)][c := Waiting(s.arming)] == s.cancels[c := Waiting(s.arming)];
  }

  /** Starting while the handler runs clears the flag a cancel of that handler waits for. */
  lemma StartDuringHandler(s: State, k: Kid, j: Kid, c: Cid) returns (bad: State)
    requires TimelyInv(s) && Enabled(s, StartBegin(k)) && j in s.busy && s.busy[j].Runs? && c !in s.cancels
    ensures Reaches(Do(s, StartBegin(k)), bad) && Violated(bad)
  {
    var s0 := Do(s, StartBegin(k));
    ReachesSelf(s0);
    bad := CancelWaits(s0, s0, c);
    bad := FinishStart(s0, bad);
    bad := ReachStep(s0, bad, LoadExecuting(c));
    assert bad.busy[j] == Runs(s.arming) && bad.cancels[c].arming == s.arming;
    assert InHandler(bad, s.arming) && Broken(bad, bad.cancels[c]);
  }

  /** Starting elsewhere while a handler has yet to clear the flag lets it clear the new handler's flag. */
  lemma StartBeforeClear(s: State, k: Kid, j: Kid, c: Cid) returns (bad: State)
    requires TimelyInv(s) && Enabled(s, StartBegin(k)) && c !in s.cancels
    requires j in s.busy && s.busy[j].Finishing? && j != k
    ensures Reaches(Do(s, StartBegin(k)), bad) && Violated(bad)
  {
    var s0 := Do(s, StartBegin(k));
    ReachesSelf(s0);
    bad := FinishStart(s0, s0);
    var a := bad.arming;
    bad := Fires(s0, bad, k, a);
    bad := ReachStep(s0, bad, ClearExecuting(j));
    bad := CancelWaits(s0, bad, c);
    bad := ReachStep(s0, bad, LoadExecuting(c));
    assert bad.busy[k] == Runs(a) && bad.cancels[c].arming == a;
    assert InHandler(bad, a) && Broken(bad, bad.cancels[c]);
  }

  /** A cancel that takes the old kthread's lock disarms the entry but leaves it in the new kthread's heap. */
  lemma StaleCancel(s0: State, s: State, c: Cid) returns (next: State)
    requires Reaches(s0, s) && c in s.cancels && s.cancels[c].AtLock? && s.armed
    requires s.cancels[c].k != s.localk && LockFree(s, s.cancels[c].k)
    ensures Reaches(s0, next)
    ensures next == s.(armed := false, cancels := s.cancels[c := Returned(s.cancels[c].arming, true, s.arming)])
  {
    next := ReachStep(s0, s, LockCheck(c));
    next := ReachStep(s0, next, Remove(c, None));
    var r := Returned(s.cancels[c].arming, true, s.arming);
    assert s.cancels[c := Holding(s.cancels[c].arming, s.cancels[c].k)][c := r] == s.cancels[c := r];
  }

  lemma StartDuringCancel(s: State, k: Kid, c: Cid) returns (bad: State)
    requires TimelyInv(s) && Enabled(s, StartBegin(k)) && c in s.cancels && s.cancels[c].AtLock? && s.cancels[c].k != k
    requires forall j :: j in s.busy ==> s.busy[j].Finishing? && j == k
    ensures Reaches(Do(s, StartBegin(k)), bad) && Violated(bad)
  {
    LocksAreFree(s, s.cancels[c].k);
    var s0 := Do(s, StartBegin(k));
    ReachesSelf(s0);
    bad := FinishStart(s0, s0);
    var a := bad.arming;
    bad := StaleCancel(s0, bad, c);
    if k in bad.busy {
      bad := ReachStep(s0, bad, ClearExecuting(k));
    }
    bad := Fires(s0, bad, k, a);
    assert bad.cancels[c] == Returned(s.cancels[c].arming, true, a) && a in bad.fired;
    assert Broken(bad, bad.cancels[c]);
  }

  /** Starting the entry on k keeps the guarantee in every continuation exactly when it is in time. */
  lemma StartSafeExactly(s: State, k: Kid, c: Cid)
    requires TimelyInv(s) && Enabled(s, StartBegin(k)) && c !in s.cancels
    ensures Safe(s, k) <==> forall s' :: Reaches(Do(s, StartBegin(k)), s') ==> !Violated(s')
  {
    var s0 := Do(s, StartBegin(k));
    if Safe(s, k) {
      TimelyStepInv(s, StartBegin(k));
      forall s' | Reaches(s0, s')
        ensures !Violated(s')
      {
        var steps :| Leads(s0, steps, s');
        TimelyLeads(s0, steps, s');
        TimelyMeansKept(s');
      }
    } else if j :| j in s.busy && s.busy[j].Runs? {
      var bad := StartDuringHandler(s, k, j, c);
    } else if j :| j in s.busy && s.busy[j].Finishing? && j != k {
      var bad := StartBeforeClear(s, k, j, c);
    } else {
      var d :| d in s.cancels && s.cancels[d].AtLock? && s.cancels[d].k != k;
      var bad := StartDuringCancel(s, k, d);
    }
  }

  // ------------------------------------------------------------------------ two examples

  lemma ReachesTimely(s: State)
    requires Reaches(INIT, s)
    ensures TimelyInv(s)
  {
    var steps :| Leads(INIT, steps, s);
    TimelyLeads(INIT, steps, s);
  }

  /** The entry is started on kthread 1 for the first time and a cancel gets as far as its lock. */
  lemma FirstStart(withCancel: bool) returns (s: State)
    ensures Reaches(INIT, s) && TimelyInv(s)
    ensures s == State(true, false, 1, map[1 := 1], NoStart, map[], 1, [],
                       if withCancel then map[0 := AtLock(1, 1)] else map[])
  {
    ReachesSelf(INIT);
    s := ReachStep(INIT, INIT, StartBegin(1));
    s := FinishStart(INIT, s);
    if withCancel {
      s := ReachStep(INIT, s, Call(0));
      s := ReachStep(INIT, s, LoadArmed(0));
      s := ReachStep(INIT, s, LoadLocalk(0));
      assert s.cancels == map[0 := AtLock(1, 1)];
    }
    ReachesTimely(s);
  }

  /** A handler that starts its own entry again, its softirq thread having moved to another kthread. */
  lemma RestartFromHandler() returns (s: State, bad: State)
    ensures Reaches(INIT, s) && s.busy == map[1 := Runs(1)] && s.cancels == map[] && Enabled(s, StartBegin(2))
    ensures Reaches(Do(s, StartBegin(2)), bad) && Violated(bad)
  {
    s := FirstStart(false);
    s := Fires(INIT, s, 1, 1);
    ReachesTimely(s);
    bad := StartDuringHandler(s, 2, 1, 0);
  }

  /**
   An entry started again on another kthread with no handler of it unfinished, but with a cancel still
   on its way to the first kthread's lock: the cancel answers true and the handler runs.
   */
  lemma RestartElsewhere() returns (s: State, bad: State)
    ensures Reaches(INIT, s) && s.busy == map[] && !s.executing && s.cancels == map[0 := AtLock(1, 1)]
    ensures Enabled(s, StartBegin(2)) && Reaches(Do(s, StartBegin(2)), bad) && Violated(bad)
  {
    s := FirstStart(true);
    s := Fires(INIT, s, 1, 1);
    s := HandlerEnds(INIT, s, 1);
    ReachesTimely(s);
    bad := StartDuringCancel(s, 2, 0);
  }
}
