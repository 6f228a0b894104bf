/**
 The mutex as an interleaving: the lock-free fast paths of lock and unlock on one word, and
 the slow paths under the waiter lock, one of which writes the word twice.
 */
module Mutex {
  import opened ListSets
  import opened Wrappers

  const WAITER_FLAG := 0x8000_0000

  type Thread = nat

  datatype Pc =
    | Out                // not in the mutex
    | LockSlow           // the fast path failed, about to take the waiter lock
    | Racing             // found the mutex free under the waiter lock, about to write 1
    | Parked
    | Owner
    | UnlockSlow         // the fast path of unlock failed, about to take the waiter lock

  /** `held` is the mutex word; `racer` is the thread inside the waiter lock between its two writes. */
  datatype State = State(held: nat, waiters: seq<Thread>, pcs: seq<Pc>, racer: Option<Thread>)

  datatype Step =
    | Lock(t: Thread) | SlowLock(t: Thread) | RaceWrite(t: Thread) | Unlock(t: Thread) | SlowUnlock(t: Thread)

  /** A step under the waiter lock needs it free. */
  predicate Enabled(s: State, step: Step) {
    && step.t < |s.pcs|
    && match step
       case Lock(t) => s.pcs[t] == Out
       case SlowLock(t) => s.pcs[t] == LockSlow && s.racer == None
       case RaceWrite(t) => s.pcs[t] == Racing
       case Unlock(t) => s.pcs[t] == Owner
       case SlowUnlock(t) => s.pcs[t] == UnlockSlow && s.racer == None
  }

  function WithFlag(held: nat): nat {
    if held >= WAITER_FLAG then held else held + WAITER_FLAG
  }

  function Do(s: State, step: Step): State
    requires Enabled(s, step)
  {
    match step
    case Lock(t) =>
      if s.held == 0 then s.(held := 1, pcs := s.pcs[t := Owner]) else s.(pcs := s.pcs[t := LockSlow])
    case SlowLock(t) =>
      if s.held == 0 then s.(held := WAITER_FLAG, pcs := s.pcs[t := Racing], racer := Some(t))
      else s.(held := WithFlag(s.held), waiters := s.waiters + [t], pcs := s.pcs[t := Parked])
    case RaceWrite(t) =>
      s.(held := 1, pcs := s.pcs[t := Owner], racer := None)
    case Unlock(t) =>
      if s.held == 1 then s.(held := 0, pcs := s.pcs[t := Out]) else s.(pcs := s.pcs[t := UnlockSlow])
    case SlowUnlock(t) =>
      if s.waiters == [] then s.(held := 0, pcs := s.pcs[t := Out])
      else s.(waiters := s.waiters[1..], pcs := Woken(s.pcs[t := Out], s.waiters[0]))
  }

  /** The thread popped from the list owns the mutex when it wakes. */
  function Woken(pcs: seq<Pc>, t: Thread): (r: seq<Pc>)
    ensures |r| == |pcs|
  {
    if t < |pcs| then pcs[t := Owner] else pcs
  }

  predicate Holding(pc: Pc) {
    pc == Owner || pc == UnlockSlow
  }

  ghost function ParkedSet(pcs: seq<Pc>): set<Thread> {
    set t: Thread | t < |pcs| && pcs[t] == Parked
  }

  /** Exactly the named thread, if any, is at such a place. */
  ghost predicate OnlyHolder(pcs: seq<Pc>, holder: Option<Thread>) {
    && (forall t :: 0 <= t < |pcs| ==> (Holding(pcs[t]) <==> holder == Some(t)))
    && (holder.Some? ==> holder.value < |pcs|)
  }

  ghost predicate OnlyRacer(pcs: seq<Pc>, racer: Option<Thread>) {
    && (forall t :: 0 <= t < |pcs| ==> (pcs[t] == Racing <==> racer == Some(t)))
    && (racer.Some? ==> racer.value < |pcs|)
  }

  /**
   At most one thread holds the mutex; the word tells whether one does; while threads wait the flag is
   set, so that the holder's unlock cannot take the fast path past them.
   */
  ghost predicate WordOk(s: State, holder: Option<Thread>) {
    && (s.held == 0 <==> holder == None && s.racer == None)
    && (s.held == WAITER_FLAG <==> s.racer.Some?)
    && (s.held == 0 || s.held == 1 || s.held == WAITER_FLAG || s.held == 1 + WAITER_FLAG)
    && (s.racer.Some? ==> holder == None)
    && (s.waiters != [] ==> s.held == 1 + WAITER_FLAG)
  }

  ghost predicate InvWith(s: State, holder: Option<Thread>) {
    && OnlyHolder(s.pcs, holder) && OnlyRacer(s.pcs, s.racer)
    && Lists(ParkedSet(s.pcs), s.waiters)
    && WordOk(s, holder)
  }

  ghost predicate Inv(s: State) {
    exists holder: Option<Thread> :: InvWith(s, holder)
  }

  lemma ParkedSame(pcs: seq<Pc>, t: Thread, pc: Pc)
    requires t < |pcs| && pcs[t] != Parked && pc != Parked
    ensures ParkedSet(pcs[t := pc]) == ParkedSet(pcs)
  {
  }

  lemma LockInv(s: State, t: Thread, holder: Option<Thread>)
    requires InvWith(s, holder) && Enabled(s, Lock(t))
    ensures InvWith(Do(s, Lock(t)), if s.held == 0 then Some(t) else holder)
  {
    ParkedSame(s.pcs, t, Owner);
    ParkedSame(s.pcs, t, LockSlow);
  }

  lemma SlowLockInv(s: State, t: Thread, holder: Option<Thread>)
    requires InvWith(s, holder) && Enabled(s, SlowLock(t))
    ensures InvWith(Do(s, SlowLock(t)), holder)
  {
    if s.held == 0 {
      ParkedSame(s.pcs, t, Racing);
    } else {
      assert ParkedSet(s.pcs[t := Parked]) == ParkedSet(s.pcs) + {t};
      ListsSnoc(ParkedSet(s.pcs), s.waiters, t);
    }
  }

  lemma RaceWriteInv(s: State, t: Thread, holder: Option<Thread>)
    requires InvWith(s, holder) && Enabled(s, RaceWrite(t))
    ensures InvWith(Do(s, RaceWrite(t)), Some(t))
  {
    ParkedSame(s.pcs, t, Owner);
  }

  lemma UnlockInv(s: State, t: Thread, holder: Option<Thread>)
    requires InvWith(s, holder) && Enabled(s, Unlock(t))
    ensures InvWith(Do(s, Unlock(t)), if s.held == 1 then None else holder)
  {
    ParkedSame(s.pcs, t, Out);
    ParkedSame(s.pcs, t, UnlockSlow);
  }

  lemma SlowUnlockInv(s: State, t: Thread, holder: Option<Thread>)
    requires InvWith(s, holder) && Enabled(s, SlowUnlock(t))
    ensures InvWith(Do(s, SlowUnlock(t)), if s.waiters == [] then None else Some(s.waiters[0]))
  {
    ParkedSame(s.pcs, t, Out);
    if s.waiters != [] {
      var w := s.waiters[0];
      assert w in ParkedSet(s.pcs);
      assert ParkedSet(s.pcs[t := Out][w := Owner]) == ParkedSet(s.pcs[t := Out]) - {w};
    }
  }

  lemma StepInv(s: State, step: Step)
    requires Inv(s) && Enabled(s, step)
    ensures Inv(Do(s, step))
  {
    var holder: Option<Thread> :| InvWith(s, holder);
    match step
    case Lock(t) => LockInv(s, t, holder);
    case SlowLock(t) => SlowLockInv(s, t, holder);
    case RaceWrite(t) => RaceWriteInv(s, t, holder);
    case Unlock(t) => UnlockInv(s, t, holder);
    case SlowUnlock(t) => SlowUnlockInv(s, t, holder);
  }

  // --------------------------------------------------------------------------- runs

  ghost predicate Init(s: State) {
    s.held == 0 && s.waiters == [] && s.racer == None && forall t :: 0 <= t < |s.pcs| ==> s.pcs[t] == Out
  }

  ghost predicate NextBy(s: State, step: Step, s': State) {
    Enabled(s, step) && s' == Do(s, step)
  }

  ghost predicate Next(s: State, s': State) {
    exists step :: NextBy(s, step, s')
  }

  ghost predicate IsRun(run: seq<State>) {
    && run != [] && Init(run[0])
    && forall i :: 0 <= i < |run| - 1 ==> Next(run[i], run[i + 1])
  }

  lemma {:induction false} RunsSatisfyInv(run: seq<State>, n: nat)
    requires IsRun(run) && n < |run|
    ensures Inv(run[n])
    decreases n
  {
    if n == 0 {
      assert ParkedSet(run[0].pcs) == {};
      assert InvWith(run[0], None);
    } else {
      RunsSatisfyInv(run, n - 1);
      assert Next(run[n - 1], run[n - 1 + 1]);
      var step :| NextBy(run[n - 1], step, run[n]);
      StepInv(run[n - 1], step);
    }
  }

  /** In every run at most one thread holds the mutex. */
  lemma MutualExclusion(run: seq<State>, n: nat, t: Thread, u: Thread)
    requires IsRun(run) && n < |run| && t < |run[n].pcs| && u < |run[n].pcs|
    requires Holding(run[n].pcs[t]) && Holding(run[n].pcs[u])
    ensures t == u
  {
    RunsSatisfyInv(run, n);
    var holder: Option<Thread> :| InvWith(run[n], holder);
  }

  /** While threads wait, some thread holds the mutex and its unlock will look at the list. */
  lemma NoLostWakeup(run: seq<State>, n: nat)
    requires IsRun(run) && n < |run| && run[n].waiters != []
    ensures exists h :: 0 <= h < |run[n].pcs| && Holding(run[n].pcs[h]) &&
              (run[n].pcs[h] == Owner ==> Do(run[n], Unlock(h)).pcs[h] == UnlockSlow)
  {
    RunsSatisfyInv(run, n);
    var holder: Option<Thread> :| InvWith(run[n], holder);
    assert Holding(run[n].pcs[holder.value]);
  }

  /** The slow unlock hands the mutex to the thread that waited longest, and nobody can slip in between. */
  lemma HandOff(run: seq<State>, n: nat, t: Thread)
    requires IsRun(run) && n < |run| && Enabled(run[n], SlowUnlock(t)) && run[n].waiters != []
    ensures var s, s' := run[n], Do(run[n], SlowUnlock(t));
            && s.waiters[0] < |s.pcs| && s.pcs[s.waiters[0]] == Parked
            && s'.pcs[s.waiters[0]] == Owner && s'.pcs[t] == Out && s'.waiters == s.waiters[1..]
            && s'.held == s.held == 1 + WAITER_FLAG
  {
    RunsSatisfyInv(run, n);
    var holder: Option<Thread> :| InvWith(run[n], holder);
    assert run[n].waiters[0] in ParkedSet(run[n].pcs);
  }
}
