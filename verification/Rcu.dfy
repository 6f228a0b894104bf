/**
 Read-copy-update: per-kthread generation counters whose parity tells whether a
 uthread is running, and a worker that waits for every counter to move on or to be
 even before it frees a batch of objects.

 The worker reads one counter per step, so kthreads run between any two reads.
 */
module Rcu {
  import opened Words

  type Obj = nat
  type Section = nat

  datatype Context =
    | InSched          // scheduler loop, or parked in it
    | InUthread        // executing a uthread
    | Ceded            // thread_finish_cede, pretending to be in the scheduler
    | Returning        // back from ceding, about to re-enter the scheduler

  /**
   `gen` is the 32-bit rcu_gen; `ticks` counts its changes without wrapping (auxiliary).
   `readers` are the read-side sections open on this kthread; they run with
   preemption disabled, so none stays open across a switch.
   */
  datatype Kthread = Kthread(gen: U32, ticks: nat, ctx: Context, readers: set<Section>)

  datatype WorkerPc =
    | Top                // about to look at the list of objects
    | Parked
    | Snapshotting       // reading the counters
    | Waiting            // sleeping between checks
    | Checking(i: nat)   // the first i counters have passed
    | Freeing

  /**
   `snap` holds the words read so far, `snapTicks` the tick counts at those reads.
   `blockers[o]` are the sections open anywhere when o was handed to rcu_free, and
   `calls[o]` counts the runs of o's callback.
   */
  datatype State = State(
    ks: seq<Kthread>, started: set<Section>,
    pending: seq<Obj>, workerTh: bool,
    worker: WorkerPc, batch: seq<Obj>, snap: seq<U32>, snapTicks: seq<nat>,
    blockers: map<Obj, set<Section>>, calls: map<Obj, nat>)

  predicate Odd(gen: U32) {
    gen % 2 == 1
  }

  /** The grace-period test of one counter against its snapshot. */
  predicate Passes(gen: U32, last: U32) {
    !(Odd(gen) && gen == last)
  }

  ghost function Live(s: State): set<Section> {
    set j, r | 0 <= j < |s.ks| && r in s.ks[j].readers :: r
  }

  // -------------------------------------------------------------------- steps

  datatype Step =
    | EnterSched(j: nat) | ExitSched(j: nat) | DirectSwitch(j: nat)
    | Cede(j: nat) | Unpark(j: nat) | Reenter(j: nat)
    | ReadLock(j: nat, r: Section) | ReadUnlock(j: nat, r: Section)
    | RcuFree(o: Obj)
    | TakeBatch | ParkWorker | ReadCounter | StartWaiting | StartCheck | CheckCounter | AllPassed
    | RunCallback | BatchDone

  /** The kthread moves to context c, adding n to its generation counter. */
  ghost function Tick(k: Kthread, n: U32, c: Context): Kthread {
    Kthread(Add32(k.gen, n), k.ticks + n, c, k.readers)
  }

  ghost predicate KEnabled(k: Kthread, step: Step) {
    match step
    case EnterSched(_) => k.ctx.InUthread? && k.readers == {}
    case ExitSched(_) => k.ctx.InSched?
    case DirectSwitch(_) => k.ctx.InUthread? && k.readers == {}
    case Cede(_) => k.ctx.InUthread? && k.readers == {}
    case Unpark(_) => k.ctx.Ceded?
    case Reenter(_) => k.ctx.Returning?
    case ReadLock(_, _) => k.ctx.InUthread?
    case ReadUnlock(_, r) => r in k.readers
    case _ => false
  }

  ghost function KApply(k: Kthread, step: Step): Kthread
    requires KEnabled(k, step)
  {
    match step
    case EnterSched(_) => Tick(k, 1, InSched)
    case ExitSched(_) => Tick(k, 1, InUthread)
    case DirectSwitch(_) => Tick(k, 2, InUthread)
    case Cede(_) => Tick(k, 1, Ceded)
    case Unpark(_) => Tick(k, 1, Returning)
    case Reenter(_) => Tick(k, 1, InSched)
    case ReadLock(_, r) => k.(readers := k.readers + {r})
    case ReadUnlock(_, r) => k.(readers := k.readers - {r})
  }

  predicate KthreadStep(step: Step) {
    step.EnterSched? || step.ExitSched? || step.DirectSwitch? || step.Cede? || step.Unpark? || step.Reenter?
    || step.ReadLock? || step.ReadUnlock?
  }

  ghost predicate Enabled(s: State, step: Step) {
    if KthreadStep(step) then
      && step.j < |s.ks| && KEnabled(s.ks[step.j], step)
      && (step.ReadLock? ==> step.r !in s.started)
    else
      match step
      case RcuFree(o) => o !in s.calls
      case TakeBatch => s.worker.Top? && s.pending != []
      case ParkWorker => s.worker.Top? && s.pending == []
      case ReadCounter => s.worker.Snapshotting? && |s.snap| < |s.ks|
      case StartWaiting => s.worker.Snapshotting? && |s.snap| == |s.ks|
      case StartCheck => s.worker.Waiting?
      case CheckCounter => s.worker.Checking? && s.worker.i < |s.ks| && s.worker.i < |s.snap|
      case AllPassed => s.worker.Checking? && s.worker.i == |s.ks|
      case RunCallback => s.worker.Freeing? && s.batch != [] && s.batch[0] in s.calls
      case BatchDone => s.worker.Freeing? && s.batch == []
      case _ => false
  }

  ghost function Apply(s: State, step: Step): State
    requires Enabled(s, step)
  {
    if KthreadStep(step) then
      s.(ks := s.ks[step.j := KApply(s.ks[step.j], step)],
         started := if step.ReadLock? then s.started + {step.r} else s.started)
    else
      match step
      case RcuFree(o) =>
        s.(pending := [o] + s.pending, workerTh := false,
           worker := if s.worker.Parked? then Top else s.worker,
           blockers := s.blockers[o := Live(s)], calls := s.calls[o := 0])
      case TakeBatch => s.(batch := s.pending, pending := [], worker := Snapshotting, snap := [], snapTicks := [])
      case ParkWorker => s.(workerTh := true, worker := Parked)
      case ReadCounter =>
        var k := s.ks[|s.snap|];
        s.(snap := s.snap + [k.gen], snapTicks := s.snapTicks + [k.ticks])
      case StartWaiting => s.(worker := Waiting)
      case StartCheck => s.(worker := Checking(0))
      case CheckCounter =>
        var i := s.worker.i;
        s.(worker := if Passes(s.ks[i].gen, s.snap[i]) then Checking(i + 1) else Waiting)
      case AllPassed => s.(worker := Freeing)
      case RunCallback => s.(batch := s.batch[1..], calls := s.calls[s.batch[0] := s.calls[s.batch[0]] + 1])
      case BatchDone => s.(worker := Top)
  }

  ghost predicate Init(s: State) {
    && (forall j :: 0 <= j < |s.ks| ==> s.ks[j].ctx.InSched? && !Odd(s.ks[j].gen) && s.ks[j].readers == {})
    && s.pending == [] && s.batch == [] && s.calls == map[] && s.blockers == map[]
    && s.worker.Top? && !s.workerTh && s.snap == [] && s.snapTicks == []
  }

  ghost predicate NextBy(s: State, step: Step, s': State) {
    Enabled(s, step) && s' == Apply(s, step)
  }

  ghost predicate Next(s: State, s': State) {
    exists step :: NextBy(s, step, s')
  }

  // ---------------------------------------------------------------- invariant

  /** rcu_gen is odd exactly when the kthread counts as being in a uthread. */
  ghost predicate KthreadOk(k: Kthread, started: set<Section>) {
    && (Odd(k.gen) <==> k.ctx.InUthread? || k.ctx.Returning?)
    && (k.readers != {} ==> k.ctx.InUthread?)
    && k.readers <= started
  }

  ghost predicate KthreadsOk(s: State) {
    forall j :: 0 <= j < |s.ks| ==> KthreadOk(s.ks[j], s.started)
  }

  /** Every object is pending, taken, or had its callback run once. */
  ghost predicate ListsOk(s: State) {
    var q := s.pending + s.batch;
    && (forall a, b :: 0 <= a < b < |q| ==> q[a] != q[b])
    && (forall o :: o in q ==> o in s.calls)
    && (forall o :: o in s.calls ==> o in s.blockers && s.calls[o] == if o in q then 0 else 1)
    && (forall o :: o in s.blockers ==> s.blockers[o] <= s.started)
  }

  /** A worker that is parked, and only such a worker, is registered to be woken, and it left no object behind. */
  ghost predicate WorkerOk(s: State) {
    && (s.workerTh <==> s.worker.Parked?)
    && (s.worker.Parked? ==> s.pending == [])
    && (s.worker.Top? || s.worker.Parked? ==> s.batch == [])
  }

  ghost predicate SnapshotOk(s: State) {
    && |s.snap| == |s.snapTicks| <= |s.ks|
    && (s.worker.Waiting? || s.worker.Checking? ==> |s.snap| == |s.ks|)
    && (s.worker.Checking? ==> s.worker.i <= |s.ks|)
    && (forall j :: 0 <= j < |s.snap| ==>
          s.snapTicks[j] <= s.ks[j].ticks && (s.snapTicks[j] == s.ks[j].ticks ==> s.snap[j] == s.ks[j].gen))
  }

  /** No section that was open when o was freed is open on kthread j any more. */
  ghost predicate ClearOf(s: State, o: Obj, j: nat)
    requires o in s.blockers && j < |s.ks|
  {
    s.blockers[o] !! s.ks[j].readers
  }

  /** How much of the grace period has passed for an object on kthread j. */
  ghost predicate GraceOk(s: State, o: Obj, j: nat)
    requires o in s.blockers && j < |s.ks|
    requires SnapshotOk(s)
  {
    && (o in s.calls && s.calls[o] > 0 ==> ClearOf(s, o, j))
    && (o in s.batch && j < |s.snap| ==> ClearOf(s, o, j) || s.ks[j].ticks == s.snapTicks[j])
    && (o in s.batch && s.worker.Checking? && j < s.worker.i ==> ClearOf(s, o, j))
    && (o in s.batch && s.worker.Freeing? ==> ClearOf(s, o, j))
  }

  ghost predicate GracePeriods(s: State)
    requires SnapshotOk(s)
  {
    forall o, j: nat :: o in s.blockers && j < |s.ks| ==> GraceOk(s, o, j)
  }

  ghost predicate Inv(s: State) {
    KthreadsOk(s) && ListsOk(s) && WorkerOk(s) && SnapshotOk(s) && GracePeriods(s)
  }

  // ------------------------------------------------------------ inductive steps

  /** A kthread step keeps the parity rule, and its counter never moves under an open section. */
  lemma KthreadStepOk(k: Kthread, step: Step, started: set<Section>)
    requires KthreadOk(k, started) && KEnabled(k, step)
    ensures var k' := KApply(k, step);
            && KthreadOk(k', if step.ReadLock? then started + {step.r} else started)
            && k'.ticks >= k.ticks
            && (k'.ticks == k.ticks ==> k'.gen == k.gen)
            && (k'.ticks != k.ticks ==> k'.readers == {})
            && k'.readers <= k.readers + if step.ReadLock? then {step.r} else {}
  {
  }

  lemma KthreadStepInv(s: State, step: Step)
    requires Inv(s) && Enabled(s, step) && KthreadStep(step)
    ensures Inv(Apply(s, step))
  {
    var s' := Apply(s, step);
    KthreadStepOk(s.ks[step.j], step, s.started);
    forall o, j: nat | o in s'.blockers && j < |s'.ks|
      ensures GraceOk(s', o, j)
    {
      assert GraceOk(s, o, j);
    }
  }

  lemma RcuFreeInv(s: State, o: Obj)
    requires Inv(s) && Enabled(s, RcuFree(o))
    ensures Inv(Apply(s, RcuFree(o)))
  {
    var s' := Apply(s, RcuFree(o));
    assert s'.pending + s'.batch == [o] + (s.pending + s.batch);
    assert o !in s.pending + s.batch;
    forall r | r in Live(s)
      ensures r in s.started
    {
      var j :| 0 <= j < |s.ks| && r in s.ks[j].readers;
      assert KthreadOk(s.ks[j], s.started);
    }
    forall x, j: nat | x in s'.blockers && j < |s'.ks|
      ensures GraceOk(s', x, j)
    {
      if x != o {
        assert GraceOk(s, x, j);
      } else {
        assert x !in s'.batch;
      }
    }
  }

  lemma TakeBatchInv(s: State)
    requires Inv(s) && Enabled(s, TakeBatch)
    ensures Inv(Apply(s, TakeBatch))
  {
    var s' := Apply(s, TakeBatch);
    assert s'.pending + s'.batch == s.pending + s.batch;
    forall o, j: nat | o in s'.blockers && j < |s'.ks|
      ensures GraceOk(s', o, j)
    {
      assert GraceOk(s, o, j);
    }
  }

  /** A counter that passes belongs to a kthread none of the batch's sections is open on. */
  lemma PassMeansClear(s: State, o: Obj)
    requires Inv(s) && Enabled(s, CheckCounter) && o in s.batch
    requires Passes(s.ks[s.worker.i].gen, s.snap[s.worker.i])
    ensures o in s.blockers && ClearOf(s, o, s.worker.i)
  {
    var i := s.worker.i;
    assert o in s.pending + s.batch;
    assert KthreadOk(s.ks[i], s.started) && GraceOk(s, o, i);
  }

  lemma CheckCounterInv(s: State)
    requires Inv(s) && Enabled(s, CheckCounter)
    ensures Inv(Apply(s, CheckCounter))
  {
    var s' := Apply(s, CheckCounter);
    assert s'.pending + s'.batch == s.pending + s.batch;
    forall o, j: nat | o in s'.blockers && j < |s'.ks|
      ensures GraceOk(s', o, j)
    {
      assert GraceOk(s, o, j);
      if o in s.batch && Passes(s.ks[s.worker.i].gen, s.snap[s.worker.i]) {
        PassMeansClear(s, o);
      }
    }
  }

  /** Taking one of several different objects out of a list. */
  lemma TakeOut(q: seq<Obj>, n: nat)
    requires n < |q| && forall a, b :: 0 <= a < b < |q| ==> q[a] != q[b]
    ensures var q' := q[..n] + q[n + 1..];
            && (forall a, b :: 0 <= a < b < |q'| ==> q'[a] != q'[b])
            && (forall x :: x in q' <==> x in q && x != q[n])
  {
    var q' := q[..n] + q[n + 1..];
    forall x | x in q && x != q[n]
      ensures x in q'
    {
      var a :| 0 <= a < |q| && q[a] == x;
      assert q'[if a < n then a else a - 1] == x;
    }
  }

  lemma RunCallbackLists(s: State)
    requires ListsOk(s) && Enabled(s, RunCallback)
    ensures ListsOk(Apply(s, RunCallback))
  {
    var s' := Apply(s, RunCallback);
    var q, n := s.pending + s.batch, |s.pending|;
    TakeOut(q, n);
    assert q[n] == s.batch[0] && s'.pending + s'.batch == q[..n] + q[n + 1..];
  }

  lemma RunCallbackInv(s: State)
    requires Inv(s) && Enabled(s, RunCallback)
    ensures Inv(Apply(s, RunCallback))
  {
    var s' := Apply(s, RunCallback);
    RunCallbackLists(s);
    forall x, j: nat | x in s'.blockers && j < |s'.ks|
      ensures GraceOk(s', x, j)
    {
      assert GraceOk(s, x, j);
    }
  }

  lemma WorkerStepInv(s: State, step: Step)
    requires Inv(s) && Enabled(s, step)
    requires step.ParkWorker? || step.ReadCounter? || step.StartWaiting? || step.StartCheck? || step.AllPassed?
             || step.BatchDone?
    ensures Inv(Apply(s, step))
  {
    var s' := Apply(s, step);
    assert s'.pending + s'.batch == s.pending + s.batch;
    forall o, j: nat | o in s'.blockers && j < |s'.ks|
      ensures GraceOk(s', o, j)
    {
      assert GraceOk(s, o, j);
    }
  }

  lemma StepInv(s: State, step: Step)
    requires Inv(s) && Enabled(s, step)
    ensures Inv(Apply(s, step))
  {
    if KthreadStep(step) {
      KthreadStepInv(s, step);
    } else {
      match step
      case RcuFree(o) => RcuFreeInv(s, o);
      case TakeBatch => TakeBatchInv(s);
      case CheckCounter => CheckCounterInv(s);
      case RunCallback => RunCallbackInv(s);
      case _ => WorkerStepInv(s, step);
    }
  }

  // ------------------------------------------------------------------ whole runs

  ghost predicate IsRun(run: seq<State>) {
    && run != [] && Init(run[0])
    && forall i :: 0 <= i < |run| - 1 ==> Next(run[i], run[i + 1])
  }

  lemma {:induction false} RunsSatisfyInv(run: seq<State>, n: nat)
    requires IsRun(run) && n < |run|
    ensures Inv(run[n])
  {
    if n > 0 {
      RunsSatisfyInv(run, n - 1);
      var step :| NextBy(run[n - 1], step, run[n]);
      StepInv(run[n - 1], step);
    }
  }

  /**
   In every run: when the callback of o is about to run, and ever after, no section
   that was open at rcu_free is still open on any kthread; and an object that is no
   longer waiting has had its callback run exactly once.
   */
  lemma CallbackIsSafe(run: seq<State>, n: nat, o: Obj, j: nat)
    requires IsRun(run) && n < |run|
    requires o in run[n].calls && j < |run[n].ks|
    ensures o in run[n].blockers
    ensures run[n].calls[o] == if o in run[n].pending + run[n].batch then 0 else 1
    ensures (run[n].worker.Freeing? && o in run[n].batch) || run[n].calls[o] == 1
            ==> run[n].blockers[o] !! run[n].ks[j].readers
  {
    RunsSatisfyInv(run, n);
    assert GraceOk(run[n], o, j);
  }

  /** In every run: parity marks uthread context, and a parked worker implies an empty list. */
  lemma ParityAndParking(run: seq<State>, n: nat, j: nat)
    requires IsRun(run) && n < |run| && j < |run[n].ks|
    ensures Odd(run[n].ks[j].gen) <==> run[n].ks[j].ctx.InUthread? || run[n].ks[j].ctx.Returning?
    ensures run[n].workerTh ==> run[n].worker.Parked? && run[n].pending == []
    ensures run[n].worker.Parked? ==> run[n].workerTh
  {
    RunsSatisfyInv(run, n);
    assert KthreadOk(run[n].ks[j], run[n].started);
  }
}
