/**
 The two-party protocol by which the iokernel hands a core to a kthread: the words
 of struct ksched_shm_cpu for one core, the iokernel that writes requests into them
 and the kernel module that carries them out.

 One load or store of a shared word is one step; kernel code between two shared
 accesses is folded into one of them.
 */
module Ksched {
  import opened Words
  import opened Wrappers

  type Task = nat   // 0 asks for an idle core

  /** Where the core's kernel side is. */
  datatype Cpu =
    | User(t: Task)                           // the granted task runs
    | Stalled(t: Task)                        // it sleeps inside the kernel, still granted
    | ParkStart(t: Task)                      // ksched_park, local busy cleared
    | ParkSame(t: Task)                       // saw no new request
    | ParkDrop(t: Task)                       // has marked the core idle
    | ParkNew(t: Task, g: U32)                // saw a new generation, tid not read yet
    | ParkSet(t: Task, g: U32, tid: Task)     // last_gen taken, old task not yet dropped
    | Launch(g: U32, inIdle: bool)            // next task chosen, nothing published yet
    | LaunchLocal(g: U32, inIdle: bool)       // busy published
    | LaunchPublish(g: U32, inIdle: bool)     // local busy set; last_gen not published yet
    | IdleLoop                                // idle, between two calls of ksched_idle
    | IdleEntry                               // ksched_idle, local busy cleared
    | IdleStale                               // saw a stale busy word, about to clear it
    | IdleWait                                // about to compare generations in mwait
    | IdleGot(g: U32)                         // took g for a new generation

  /** The interrupt handler, which stops everything else the core does. */
  datatype Ipi =
    | NoIpi
    | Handling(again: bool)                   // has signalled, sig not cleared; again: enqueued since

  /**
   History of the signals: the generations one was asked for, the (generation, task) of each one
   sent, and for each request that was erased its generation and the one being handled.
   */
  datatype Log = Log(asked: set<U32>, sent: seq<(U32, Task)>, lost: seq<(U32, U32)>)

  /**
   Shared words: gen, tid, sig (written by the iokernel), lastGen, busy (by the kernel).
   `wait` and `gens` are the iokernel's; kLast, kBusy, task and ipi the kernel's.
   Auxiliary: reqs[g] is what request g asked for, `idleSeen` that the iokernel has read
   the core as idle since its last request.
   */
  datatype State = State(
    gen: U32, tid: Task, sig: U32, lastGen: U32, busy: bool,
    gens: U32, wait: bool, midRun: bool,
    kLast: U32, kBusy: bool, task: Option<Task>, cpu: Cpu, ipi: Ipi,
    reqs: seq<Task>, idleSeen: bool, log: Log)

  /**
   What ksched_mwait_on_addr hands back: the 32-bit generation goes through a signed
   int and is then stored in an unsigned long.
   */
  function Widened(g: U32): nat {
    if g < 0x8000_0000 then g else g + 0xFFFF_FFFF_0000_0000
  }

  /** The comparison in ksched_idle that decides whether a request is waiting. */
  predicate IdleSeesNew(g: U32, last: U32) {
    Widened(g) != last
  }

  /** The comparison means "a different generation" exactly for generations below 2^31. */
  lemma IdleSeesNewExact(g: U32)
    ensures (forall last: U32 :: IdleSeesNew(g, last) <==> g != last) <==> g < 0x8000_0000
  {
    if g >= 0x8000_0000 {
      assert IdleSeesNew(g, g);
    }
  }

  // -------------------------------------------------------------------- steps

  datatype Step =
    // the iokernel
    | RunTid(tid: Task) | RunGen | EnqueueIntr | PollDone | PollIdle
    // ksched_park
    | ParkCall | ParkSignalled | ParkNothingNew | ParkMarkIdle | ParkSleep
    | ParkSeesNew | ParkReadTid | ParkLaunch(ok: bool)
    // the common tail of both
    | PublishBusy | SetLocalBusy | PublishLastGen
    // ksched_idle
    | IdleEnter | IdleCheck | IdleMarkIdle | IdleMwait | IdleReadTid(ok: bool)
    // ksched_ipi, and the granted task's own doings
    | IpiLoad | IpiClear | Stall | Resume | TaskExit

  predicate IrqsOff(c: Cpu) {
    c.IdleEntry? || c.IdleStale? || c.IdleWait? || c.IdleGot?
    || (c.Launch? && c.inIdle) || (c.LaunchLocal? && c.inIdle) || (c.LaunchPublish? && c.inIdle)
  }

  /** A step is enabled; the core takes no other while it handles an interrupt. */
  ghost predicate Enabled(s: State, step: Step) {
    (IoStep(step) || step.IpiClear? || s.ipi.NoIpi?) && Ready(s, step)
  }

  ghost predicate Ready(s: State, step: Step) {
    match step
    case RunTid(_) => !s.midRun && (!s.wait || s.lastGen == s.gens)
    case RunGen => s.midRun
    case EnqueueIntr => !s.midRun
    case PollDone => !s.midRun && s.wait && s.lastGen == s.gens
    case PollIdle => !s.midRun && !s.wait && !s.busy
    case ParkCall => s.cpu.User?
    case ParkSignalled => s.cpu.ParkStart?
    case ParkNothingNew => s.cpu.ParkStart? && s.gen == s.kLast
    case ParkMarkIdle => s.cpu.ParkSame?
    case ParkSleep => s.cpu.ParkDrop?
    case ParkSeesNew => s.cpu.ParkStart? && s.gen != s.kLast
    case ParkReadTid => s.cpu.ParkNew?
    case ParkLaunch(_) => s.cpu.ParkSet?
    case PublishBusy => s.cpu.Launch?
    case SetLocalBusy => s.cpu.LaunchLocal?
    case PublishLastGen => s.cpu.LaunchPublish?
    case IdleEnter => s.cpu.IdleLoop?
    case IdleCheck => s.cpu.IdleEntry?
    case IdleMarkIdle => s.cpu.IdleStale?
    case IdleMwait => s.cpu.IdleWait?
    case IdleReadTid(_) => s.cpu.IdleGot?
    case IpiLoad => !IrqsOff(s.cpu)
    case IpiClear => s.ipi.Handling?
    case Stall => s.cpu.User?
    case Resume => s.cpu.Stalled?
    case TaskExit => s.cpu.User?
  }

  /** ksched_next_tid: a task that exists and is parked is woken, any other request leaves the core empty. */
  function NextTask(tid: Task, ok: bool): Option<Task> {
    if tid != 0 && ok then Some(tid) else None
  }

  ghost function IoApply(s: State, step: Step): (s': State)
    requires Enabled(s, step)
    ensures s'.log.sent == s.log.sent && s'.log.lost == s.log.lost
  {
    match step
    case RunTid(tid) =>
      s.(gens := Add32(s.gens, 1), tid := tid, wait := true, midRun := true, reqs := s.reqs + [tid], idleSeen := false)
    case RunGen => s.(gen := s.gens, midRun := false)
    case EnqueueIntr =>
      s.(sig := s.gens, ipi := if s.ipi.Handling? then Handling(true) else NoIpi,
         log := s.log.(asked := s.log.asked + {s.gens}))
    case PollDone => s.(wait := false)
    case PollIdle => s.(idleSeen := true)
    case _ => s
  }

  /** The words and the history of the signals are the same. */
  ghost predicate SameSignals(s: State, s': State) {
    s'.log == s.log && s'.sig == s.sig && s'.ipi == s.ipi && s'.reqs == s.reqs
  }

  ghost function ParkApply(s: State, step: Step): (s': State)
    requires Enabled(s, step)
    ensures SameSignals(s, s')
  {
    match step
    case ParkCall => s.(kBusy := false, cpu := ParkStart(s.cpu.t))
    case ParkSignalled => s.(kBusy := true, cpu := User(s.cpu.t))
    case ParkNothingNew => s.(cpu := ParkSame(s.cpu.t))
    case ParkMarkIdle => s.(busy := false, cpu := ParkDrop(s.cpu.t))
    case ParkSleep => s.(task := None, cpu := IdleLoop)
    case ParkSeesNew => s.(cpu := ParkNew(s.cpu.t, s.gen))
    case ParkReadTid => s.(kLast := s.cpu.g, cpu := ParkSet(s.cpu.t, s.cpu.g, s.tid))
    case ParkLaunch(ok) =>
      s.(task := if s.cpu.tid == s.cpu.t then Some(s.cpu.t) else NextTask(s.cpu.tid, ok), cpu := Launch(s.cpu.g, false))
    case _ => s
  }

  ghost function LaunchApply(s: State, step: Step): (s': State)
    requires Enabled(s, step)
    ensures SameSignals(s, s')
  {
    match step
    case PublishBusy => s.(busy := s.task.Some?, cpu := LaunchLocal(s.cpu.g, s.cpu.inIdle))
    case SetLocalBusy => s.(kBusy := s.cpu.inIdle || s.task.Some?, cpu := LaunchPublish(s.cpu.g, s.cpu.inIdle))
    case PublishLastGen => s.(lastGen := s.cpu.g, cpu := if s.task.Some? then User(s.task.value) else IdleLoop)
    case Stall => s.(cpu := Stalled(s.cpu.t))
    case Resume => s.(cpu := User(s.cpu.t))
    case TaskExit => s.(task := None, cpu := IdleLoop)
    case _ => s
  }

  ghost function IdleApply(s: State, step: Step): (s': State)
    requires Enabled(s, step)
    ensures SameSignals(s, s')
  {
    match step
    case IdleEnter => s.(kBusy := false, cpu := IdleEntry)
    case IdleCheck => s.(cpu := if s.busy && s.gen == s.kLast then IdleStale else IdleWait)
    case IdleMarkIdle => s.(busy := false, cpu := IdleWait)
    case IdleMwait => s.(cpu := if IdleSeesNew(s.gen, s.kLast) then IdleGot(s.gen) else IdleLoop)
    case IdleReadTid(ok) => s.(kLast := s.cpu.g, task := NextTask(s.tid, ok), cpu := Launch(s.cpu.g, true))
    case _ => s
  }

  /** ksched_ipi: deliver only for the generation last taken up, and only to a busy core's task; then clear sig. */
  ghost function IpiApply(s: State, step: Step): State {
    if step.IpiClear? then
      var lost := if s.ipi.Handling? && s.ipi.again then [(s.sig, s.kLast)] else [];
      s.(sig := 0, ipi := NoIpi, log := s.log.(lost := s.log.lost + lost))
    else if s.sig != s.kLast then s
    else
      var sent := if s.kBusy && s.task.Some? then [(s.sig, s.task.value)] else [];
      s.(ipi := Handling(false), log := s.log.(sent := s.log.sent + sent))
  }

  predicate IpiStep(step: Step) {
    step.IpiLoad? || step.IpiClear?
  }

  predicate IoStep(step: Step) {
    step.RunTid? || step.RunGen? || step.EnqueueIntr? || step.PollDone? || step.PollIdle?
  }

  predicate ParkStep(step: Step) {
    step.ParkCall? || step.ParkSignalled? || step.ParkNothingNew? || step.ParkMarkIdle? || step.ParkSleep?
    || step.ParkSeesNew? || step.ParkReadTid? || step.ParkLaunch?
  }

  predicate IdleStep(step: Step) {
    step.IdleEnter? || step.IdleCheck? || step.IdleMarkIdle? || step.IdleMwait? || step.IdleReadTid?
  }

  ghost function Apply(s: State, step: Step): State
    requires Enabled(s, step)
  {
    if IoStep(step) then IoApply(s, step)
    else if ParkStep(step) then ParkApply(s, step)
    else if IdleStep(step) then IdleApply(s, step)
    else if IpiStep(step) then IpiApply(s, step)
    else LaunchApply(s, step)
  }

  /** The module is loaded, the shared page is zero, the core idles. */
  ghost predicate Init(s: State) {
    && s.gen == 0 && s.sig == 0 && s.lastGen == 0 && !s.busy && s.gens == 0 && !s.wait && !s.midRun
    && s.kLast == 0 && !s.kBusy && s.task == None && s.cpu == IdleLoop && s.ipi == NoIpi
    && s.reqs == [s.tid] && !s.idleSeen && s.log == Log({}, [], [])
  }

  ghost predicate NextBy(s: State, step: Step, s': State) {
    Enabled(s, step) && s' == Apply(s, step)
  }

  ghost predicate Next(s: State, s': State) {
    exists step :: NextBy(s, step, s')
  }

  // ---------------------------------------------------------------- invariant

  /** The kernel has read a request and has not yet reported it done. */
  predicate Launching(c: Cpu) {
    c.ParkSet? || c.Launch? || c.LaunchLocal? || c.LaunchPublish?
  }

  predicate TaskOnCore(c: Cpu) {
    c.User? || c.Stalled? || c.ParkStart? || c.ParkSame? || c.ParkNew?
  }

  /** The number of requests made so far. */
  ghost function Requests(s: State): int {
    |s.reqs| - 1
  }

  /** The kernel has read generation c.g and has not yet reported it done. */
  predicate Holding(c: Cpu) {
    c.ParkNew? || c.IdleGot? || Launching(c)
  }

  /** The request pipeline holds at most one request. */
  ghost predicate PipelineOk(s: State) {
    && s.reqs != [] && s.gens == Wrap32(|s.reqs| - 1) && s.tid == s.reqs[|s.reqs| - 1]
    && s.gens == (if s.midRun then Add32(s.gen, 1) else s.gen)
    && (s.gens == s.lastGen || s.gens == Add32(s.lastGen, 1))
    && (s.midRun ==> s.wait && s.gen == s.lastGen)
    && (!s.wait ==> s.gens == s.lastGen) && (|s.reqs| == 1 ==> !s.wait)
  }

  /** A generation taken up again, after it was reported done: only the sign extension allows it. */
  predicate Again(s: State, g: U32) {
    g == s.lastGen && g >= 0x8000_0000
  }

  /** What the kernel has read is the newest generation, not yet reported, or one taken up again. */
  ghost predicate ReadsOk(s: State) {
    && (Holding(s.cpu) ==> Again(s, s.cpu.g) || (s.cpu.g == s.gens == s.gen != s.lastGen))
    && (s.cpu.ParkNew? ==> s.cpu.g != s.lastGen)
    && s.kLast == (if Launching(s.cpu) then s.cpu.g else s.lastGen)
  }

  /** The busy word, the local busy flag and running_task agree with where the kernel is. */
  ghost predicate TaskOk(s: State) {
    && (TaskOnCore(s.cpu) ==> s.task == Some(s.cpu.t) && s.busy)
    && (s.cpu.LaunchLocal? || s.cpu.LaunchPublish? ==> (s.busy <==> s.task.Some?))
    && (s.cpu.IdleLoop? || s.cpu.IdleEntry? || s.cpu.IdleStale? || s.cpu.IdleWait? || s.cpu.IdleGot? ==> s.task == None)
    && (s.cpu.ParkStart? || s.cpu.ParkSame? || s.cpu.ParkNew? || s.cpu.ParkSet? ==> !s.kBusy)
    && (s.cpu.ParkDrop? ==> !s.busy)
    && (s.idleSeen ==> !s.wait && (s.busy ==> s.gens >= 0x8000_0000))
  }

  /** What generation g, the newest one or the one before it, asked for. */
  ghost function Asked(s: State, g: U32): Task
    requires s.reqs != []
  {
    if g == s.gens || |s.reqs| == 1 then s.reqs[|s.reqs| - 1] else s.reqs[|s.reqs| - 2]
  }

  /** Generation g cannot have been taken up again while a newer request was being written. */
  ghost predicate Sound(s: State, g: U32) {
    g == s.gens || g < 0x8000_0000
  }

  /** What the kernel acts on is what its generation asked for. */
  ghost predicate MatchOk(s: State)
    requires s.reqs != []
  {
    && (s.cpu.ParkSet? && Sound(s, s.cpu.g) ==> s.cpu.tid == Asked(s, s.cpu.g))
    && (s.task.Some? && !s.cpu.ParkSet? && Sound(s, s.kLast) ==> s.task.value == Asked(s, s.kLast))
  }

  /** Every signal sent for a generation went to the one that generation asked for. */
  ghost predicate SignalsTrue(s: State) {
    forall i :: 0 <= i < |s.log.sent| ==> s.log.sent[i].0 < |s.reqs| && s.log.sent[i].1 == s.reqs[s.log.sent[i].0]
  }

  /** Which signals were asked for, and which requests for one were erased. */
  ghost predicate LogOk(s: State) {
    && (s.sig != 0 ==> s.sig in s.log.asked)
    && (forall i :: 0 <= i < |s.log.sent| ==> s.log.sent[i].0 != 0 ==> s.log.sent[i].0 in s.log.asked)
    && (s.ipi.Handling? && s.ipi.again ==> s.sig == s.kLast || s.sig == Add32(s.kLast, 1))
    && (forall i :: 0 <= i < |s.log.lost| ==> Erasable(s.log.lost[i].0, s.log.lost[i].1))
  }

  /** A request can only be erased while its own generation or the one before it is being signalled. */
  predicate Erasable(g: U32, handled: U32) {
    g == handled || g == Add32(handled, 1)
  }

  ghost predicate Core(s: State) {
    PipelineOk(s) && ReadsOk(s) && TaskOk(s) && MatchOk(s)
  }

  ghost predicate Inv(s: State) {
    Core(s) && LogOk(s) && (Requests(s) <= 0x8000_0000 ==> SignalsTrue(s))
  }

  // ------------------------------------------------------------- inductive steps

  lemma IoStepCore(s: State, step: Step)
    requires Core(s) && Enabled(s, step) && IoStep(step)
    ensures Core(IoApply(s, step))
  {
    WrapAdd(Requests(s), 1);
  }

  lemma IoStepLog(s: State, step: Step)
    requires Inv(s) && Enabled(s, step) && IoStep(step)
    ensures var s' := IoApply(s, step);
            LogOk(s') && s'.reqs != [] && (Requests(s') <= 0x8000_0000 ==> SignalsTrue(s'))
  {
  }

  lemma ParkStepCore(s: State, step: Step)
    requires Core(s) && Enabled(s, step) && ParkStep(step)
    ensures Core(ParkApply(s, step))
  {
  }

  lemma LaunchStepCore(s: State, step: Step)
    requires Core(s) && Enabled(s, step) && !IoStep(step) && !ParkStep(step) && !IdleStep(step) && !IpiStep(step)
    ensures Core(LaunchApply(s, step))
  {
  }

  lemma IdleStepCore(s: State, step: Step)
    requires Core(s) && Enabled(s, step) && IdleStep(step)
    ensures Core(IdleApply(s, step))
  {
  }

  lemma LogKept(s: State, s': State)
    requires LogOk(s) && s.ipi.NoIpi?
    requires SameSignals(s, s')
    ensures LogOk(s') && (SignalsTrue(s) ==> SignalsTrue(s'))
  {
  }

  /** Up to 2^31 requests whatever runs on a busy core is what its generation asked for. */
  lemma RunningIsAsked(s: State)
    requires Inv(s) && Requests(s) <= 0x8000_0000 && s.kBusy && s.task.Some?
    ensures s.kLast < |s.reqs| && s.task.value == s.reqs[s.kLast]
  {
    WrapSmall(Requests(s));
  }

  lemma SentOneMore(s: State, s': State, g: U32, task: Task)
    requires SignalsTrue(s) && s'.reqs == s.reqs && s'.log.sent == s.log.sent + [(g, task)]
    requires g < |s.reqs| && task == s.reqs[g]
    ensures SignalsTrue(s')
  {
  }

  lemma IpiLoadInv(s: State)
    requires Inv(s) && Enabled(s, IpiLoad)
    ensures Inv(IpiApply(s, IpiLoad))
  {
    var s' := IpiApply(s, IpiLoad);
    if s.sig == s.kLast && s.kBusy && s.task.Some? && Requests(s) <= 0x8000_0000 {
      RunningIsAsked(s);
      SentOneMore(s, s', s.sig, s.task.value);
    }
  }

  lemma IpiClearInv(s: State)
    requires Inv(s) && Enabled(s, IpiClear)
    ensures Inv(IpiApply(s, IpiClear))
  {
  }

  lemma CpuStepCore(s: State, step: Step)
    requires Core(s) && Enabled(s, step) && !IoStep(step) && !IpiStep(step)
    ensures Core(Apply(s, step))
  {
    if ParkStep(step) {
      ParkStepCore(s, step);
    } else if IdleStep(step) {
      IdleStepCore(s, step);
    } else {
      LaunchStepCore(s, step);
    }
  }

  lemma StepInv(s: State, step: Step)
    requires Inv(s) && Enabled(s, step)
    ensures Inv(Apply(s, step))
  {
    if IoStep(step) {
      IoStepCore(s, step);
      IoStepLog(s, step);
    } else if step.IpiLoad? {
      IpiLoadInv(s);
    } else if step.IpiClear? {
      IpiClearInv(s);
    } else {
      CpuStepCore(s, step);
      LogKept(s, Apply(s, step));
    }
  }

  // ------------------------------------------------------------------ whole runs

  ghost predicate IsRun(run: seq<State>) {
    && run != [] && Init(run[0])
    && forall i :: 0 <= i < |run| - 1 ==> Next(run[i], run[i + 1])
  }

  lemma {:induction false} RunsSatisfyInv(run: seq<State>, n: nat)
    requires IsRun(run) && n < |run|
    ensures Inv(run[n])
  {
    if n > 0 {
      RunsSatisfyInv(run, n - 1);
      var step :| NextBy(run[n - 1], step, run[n]);
      StepInv(run[n - 1], step);
    }
  }

  /**
   In every run, however long, the generation counts the requests modulo 2^32, at most one
   request is outstanding, and none is once the iokernel has stopped waiting.
   */
  lemma OneOutstanding(run: seq<State>, n: nat)
    requires IsRun(run) && n < |run|
    ensures var s := run[n];
            && Requests(s) >= 0 && s.gens == Wrap32(Requests(s))
            && (s.lastGen == s.gens || Add32(s.lastGen, 1) == s.gens)
            && (!s.wait ==> s.lastGen == s.gens == s.kLast == s.gen)
  {
    RunsSatisfyInv(run, n);
  }

  /**
   In every run, a signal is sent only for the last generation the kernel took up, which is the newest
   or the one before it; only after it was asked for, zero being what the cleared word holds; and only
   to what runs on a busy core, which that generation asked for unless it was taken up again.
   */
  lemma SentForLastGeneration(run: seq<State>, n: nat)
    requires IsRun(run) && n + 1 < |run| && run[n + 1].log.sent != run[n].log.sent
    ensures var s := run[n];
            && s.kBusy && s.task.Some? && run[n + 1].kLast == s.kLast && s.reqs != []
            && run[n + 1].log.sent == s.log.sent + [(s.kLast, s.task.value)]
            && (s.kLast == s.gens || Add32(s.kLast, 1) == s.gens)
            && (s.kLast != 0 ==> s.kLast in s.log.asked)
            && (Sound(s, s.kLast) ==> s.task.value == Asked(s, s.kLast))
  {
    RunsSatisfyInv(run, n);
    assert Next(run[n], run[n + 1]);
    var step :| NextBy(run[n], step, run[n + 1]);
    SendingStep(run[n], step);
  }

  lemma SendingStep(s: State, step: Step)
    requires Enabled(s, step) && Apply(s, step).log.sent != s.log.sent
    ensures step.IpiLoad? && s.sig == s.kLast && s.kBusy && s.task.Some?
  {
  }

  /** In every run, a request for a signal is erased only while its own generation or the one before is signalled. */
  lemma LostRequests(run: seq<State>, n: nat, i: nat)
    requires IsRun(run) && n < |run| && i < |run[n].log.lost|
    ensures Erasable(run[n].log.lost[i].0, run[n].log.lost[i].1)
  {
    RunsSatisfyInv(run, n);
  }

  ghost predicate Reachable(s: State) {
    exists run :: IsRun(run) && run[|run| - 1] == s
  }

  lemma ReachableInv(s: State)
    requires Reachable(s)
    ensures Inv(s)
  {
    var run :| IsRun(run) && run[|run| - 1] == s;
    RunsSatisfyInv(run, |run| - 1);
  }

  /** The tid the kernel acts on was written for the very generation it acts on. */
  ghost predicate TidTrue(s: State) {
    && s.reqs != []
    && (s.cpu.ParkNew? || s.cpu.IdleGot? ==> s.tid == Asked(s, s.cpu.g))
    && (s.cpu.ParkSet? ==> s.cpu.tid == Asked(s, s.cpu.g))
    && (TaskOnCore(s.cpu) ==> s.cpu.t == Asked(s, s.kLast))
  }

  /** The generation before the newest one is below 2^31, or there is none. */
  predicate LastBelowSign(n: nat) {
    n == 0 || Wrap32(n - 1) < 0x8000_0000
  }

  lemma TidMatchesGeneration(s: State)
    requires Reachable(s) && |s.reqs| > 0 && LastBelowSign(|s.reqs| - 1)
    ensures TidTrue(s)
  {
    ReachableInv(s);
    if |s.reqs| > 1 {
      WrapAdd(|s.reqs| - 2, 1);
    }
  }

  /**
   Once the core reads as idle while no request is waiting, the kernel has taken up the
   newest request and no task is on the core or being started on it.
   */
  ghost predicate IdleReadingTrue(s: State) {
    s.idleSeen || Enabled(s, PollIdle) ==> !TaskOnCore(s.cpu) && !Launching(s.cpu) && s.kLast == s.gens
  }

  lemma IdleReadingIsTrue(s: State)
    requires Reachable(s) && |s.reqs| > 0 && Wrap32(|s.reqs| - 1) < 0x8000_0000
    ensures IdleReadingTrue(s)
  {
    ReachableInv(s);
  }

  lemma SignalsReachTheirTask(s: State)
    requires Reachable(s) && Requests(s) <= 0x8000_0000
    ensures SignalsTrue(s)
  {
    ReachableInv(s);
  }

  // ------------------------------------------- what the sign extension takes away

  lemma Reach(s: State, step: Step) returns (next: State)
    requires Reachable(s) && Enabled(s, step)
    ensures next == Apply(s, step) && Reachable(next)
  {
    next := Apply(s, step);
    var run :| IsRun(run) && run[|run| - 1] == s;
    var run' := run + [Apply(s, step)];
    forall i | 0 <= i < |run'| - 1
      ensures Next(run'[i], run'[i + 1])
    {
      if i < |run| - 1 {
        assert Next(run[i], run[i + 1]);
      } else {
        assert NextBy(s, step, Apply(s, step));
      }
    }
    assert IsRun(run');
  }

  /** An idle core after n requests. */
  ghost predicate Quiet(s: State, n: nat) {
    && |s.reqs| == n + 1 && s.tid == s.reqs[n]
    && s.gen == s.gens == s.lastGen == s.kLast == Wrap32(n)
    && !s.busy && !s.wait && !s.midRun && s.task == None && s.cpu == IdleLoop && s.ipi == NoIpi
  }

  lemma PublishesBusy(before: State) returns (s: State)
    requires Reachable(before) && before.cpu.Launch? && before.cpu.inIdle && before.ipi.NoIpi?
    ensures Reachable(s)
    ensures s == before.(busy := before.task.Some?, kBusy := true, cpu := LaunchPublish(before.cpu.g, true))
  {
    s := Reach(before, PublishBusy);
    s := Reach(s, SetLocalBusy);
  }

  /** The three stores that end a launch in the idle loop. */
  lemma FinishLaunch(before: State) returns (s: State)
    requires Reachable(before) && before.cpu.Launch? && before.cpu.inIdle && before.ipi.NoIpi?
    ensures Reachable(s)
    ensures s == before.(busy := before.task.Some?, kBusy := true, lastGen := before.cpu.g,
                         cpu := if before.task.Some? then User(before.task.value) else IdleLoop)
  {
    s := PublishesBusy(before);
    s := Reach(s, PublishLastGen);
  }

  /** An idle loop that takes the generation it reads for a new one. */
  lemma IdleTakes(before: State) returns (s: State)
    requires Reachable(before) && before.cpu.IdleLoop? && before.ipi.NoIpi?
    requires IdleSeesNew(before.gen, before.kLast) && !(before.busy && before.gen == before.kLast)
    ensures Reachable(s)
    ensures s == before.(kBusy := false, cpu := IdleGot(before.gen))
  {
    s := Reach(before, IdleEnter);
    s := Reach(s, IdleCheck);
    s := Reach(s, IdleMwait);
  }

  /** It then starts whatever task it finds in the tid word, or fails to. */
  lemma IdleStarts(before: State, ok: bool) returns (s: State)
    requires Reachable(before) && before.cpu.IdleGot? && before.ipi.NoIpi?
    ensures Reachable(s)
    ensures var task := NextTask(before.tid, ok);
            s == before.(kBusy := true, kLast := before.cpu.g, lastGen := before.cpu.g, task := task,
                         busy := task.Some?, cpu := if task.Some? then User(task.value) else IdleLoop)
  {
    s := Reach(before, IdleReadTid(ok));
    s := FinishLaunch(s);
  }

  lemma OneMoreRequest(before: State, n: nat) returns (s: State)
    requires Reachable(before) && Quiet(before, n)
    ensures Reachable(s) && Quiet(s, n + 1) && s.log == before.log && s.reqs == before.reqs + [7] && s.tid == 7
  {
    WrapAdd(n, 1);
    s := before;
    s := Reach(s, RunTid(7));
    s := Reach(s, RunGen);
    s := IdleTakes(s);
    s := IdleStarts(s, false);
    s := Reach(s, PollDone);
  }

  /** From an idle core, any number of further requests leave an idle core and the history as it was. */
  lemma {:induction false} QuietAfter(before: State, n: nat, m: nat) returns (s: State)
    requires Reachable(before) && Quiet(before, n) && n <= m
    ensures Reachable(s) && Quiet(s, m) && s.log == before.log && before.reqs <= s.reqs
    ensures before.tid == 7 ==> s.tid == 7
    decreases m
  {
    if n == m {
      s := before;
    } else {
      s := QuietAfter(before, n, m - 1);
      s := OneMoreRequest(s, m - 1);
    }
  }

  lemma QuietReachable(n: nat) returns (s: State)
    ensures Reachable(s) && Quiet(s, n) && s.tid == 7 && s.log == Log({}, [], [])
  {
    s := State(0, 7, 0, 0, false, 0, false, false, 0, false, None, IdleLoop, NoIpi, [7], false, Log({}, [], []));
    assert Init(s) && IsRun([s]) && [s][|[s]| - 1] == s;
    s := QuietAfter(s, 0, n);
  }

  /**
   With the generation at or above 2^31 the idle loop takes the old generation for a new
   one and starts a task on a core the iokernel has read as idle.
   */
  lemma IdleReadingFails(n: nat) returns (s: State)
    requires Wrap32(n) >= 0x8000_0000
    ensures Reachable(s) && Requests(s) == n && s.idleSeen && !s.wait && s.cpu.User?
  {
    s := QuietReachable(n);
    s := Reach(s, PollIdle);
    s := IdleTakes(s);
    s := IdleStarts(s, true);
  }

  /** The idle reading can be trusted after n requests exactly when the generation is below 2^31. */
  lemma IdleReadingExact(n: nat)
    ensures (forall s :: Reachable(s) && Requests(s) == n ==> IdleReadingTrue(s)) <==> Wrap32(n) < 0x8000_0000
  {
    if Wrap32(n) < 0x8000_0000 {
      forall s | Reachable(s) && Requests(s) == n
        ensures IdleReadingTrue(s)
      {
        IdleReadingIsTrue(s);
      }
    } else {
      var s := IdleReadingFails(n);
      assert !IdleReadingTrue(s);
    }
  }

  /** The old generation is taken up again while the iokernel writes the tid of the next request. */
  lemma TidMismatch(n: nat) returns (s: State)
    requires Wrap32(n) >= 0x8000_0000
    ensures Reachable(s) && |s.reqs| == n + 2 && s.reqs[n] == 7 && s.tid == s.reqs[n + 1] == 9
    ensures s.cpu == IdleGot(Wrap32(n)) && s.sig == s.gen == Wrap32(n) && s.gens == Wrap32(n + 1)
    ensures s.ipi.NoIpi? && s.midRun && s.wait && s.gens != s.gen
  {
    WrapAdd(n, 1);
    s := QuietReachable(n);
    s := Reach(s, EnqueueIntr);
    s := IdleTakes(s);
    s := Reach(s, RunTid(9));
  }

  /** The kernel acts on the right tid after n requests exactly when the generation before the newest is below 2^31. */
  lemma TidExact(n: nat)
    ensures (forall s :: Reachable(s) && Requests(s) == n ==> TidTrue(s)) <==> LastBelowSign(n)
  {
    if LastBelowSign(n) {
      forall s | Reachable(s) && Requests(s) == n
        ensures TidTrue(s)
      {
        TidMatchesGeneration(s);
      }
    } else {
      var s := TidMismatch(n - 1);
      assert !TidTrue(s);
    }
  }

  /** A task started that way then receives the signal meant for its predecessor. */
  lemma SignalAstray(n: nat) returns (s: State)
    requires Wrap32(n) == n >= 0x8000_0000
    ensures Reachable(s) && Requests(s) == n + 1 && Astray(s)
    ensures s.cpu.User? && s.busy && s.ipi.NoIpi? && s.midRun && s.wait
    ensures s.gen == s.kLast && s.gens == Wrap32(n + 1) && s.gens != s.gen
  {
    s := TidMismatch(n);
    s := IdleStarts(s, true);
    ghost var sent := s.log.sent;
    s := Reach(s, IpiLoad);
    assert s.log.sent[|sent|] == (n, 9);
    s := Reach(s, IpiClear);
    assert s.log.sent[|sent|] == (n, 9) && s.reqs[n] == 7;
  }

  /** A signal has gone to another than the one its generation asked for. */
  ghost predicate Astray(s: State) {
    exists i :: 0 <= i < |s.log.sent| && s.log.sent[i].0 < |s.reqs| && s.log.sent[i].1 != s.reqs[s.log.sent[i].0]
  }

  lemma StaysAstray(s: State, s': State)
    requires Astray(s) && s'.log == s.log && s.reqs <= s'.reqs
    ensures !SignalsTrue(s')
  {
    var i :| 0 <= i < |s.log.sent| && s.log.sent[i].0 < |s.reqs| && s.log.sent[i].1 != s.reqs[s.log.sent[i].0];
    assert s'.log.sent[i] == s.log.sent[i];
  }

  /** What runs exits, and the request that was being written is taken up without starting anything. */
  lemma SettlesDown(before: State) returns (s: State)
    requires Reachable(before) && before.cpu.User? && before.midRun && before.wait && before.ipi.NoIpi?
    requires before.gens != before.kLast && before.reqs != [] && before.gens == Wrap32(|before.reqs| - 1)
    requires before.tid == before.reqs[|before.reqs| - 1]
    ensures Reachable(s) && s.log == before.log && s.reqs == before.reqs
    ensures s.cpu == IdleLoop && !s.busy && !s.wait && !s.midRun && s.task == None && s.ipi == NoIpi
    ensures s.tid == before.tid
    ensures s.gen == s.gens == s.lastGen == s.kLast == before.gens
  {
    s := before;
    s := Reach(s, RunGen);
    s := Reach(s, TaskExit);
    s := IdleTakes(s);
    s := IdleStarts(s, false);
    s := Reach(s, PollDone);
  }

  /** Once a signal has gone astray, the history stays wrong however many requests follow. */
  lemma AstrayAfter(n: nat) returns (s: State)
    requires n > 0x8000_0000
    ensures Reachable(s) && Requests(s) == n && !SignalsTrue(s)
  {
    var first: nat := 0x8000_0000;
    WrapSmall(first);
    WrapSmall(first + 1);
    var astray := SignalAstray(first);
    ReachableInv(astray);
    s := SettlesDown(astray);
    s := QuietAfter(s, first + 1, n);
    StaysAstray(astray, s);
  }

  /** Signals reach their task exactly while no more than 2^31 requests have been made. */
  lemma SignalsExact(n: nat)
    ensures (forall s :: Reachable(s) && Requests(s) == n ==> SignalsTrue(s)) <==> n <= 0x8000_0000
  {
    if n <= 0x8000_0000 {
      forall s | Reachable(s) && Requests(s) == n
        ensures SignalsTrue(s)
      {
        SignalsReachTheirTask(s);
      }
    } else {
      var s := AstrayAfter(n);
    }
  }

  // -------------------------------------------------------------- requests that are erased

  /** A task of generation 1 runs, and a signal for it was asked for. */
  lemma FirstTaskRuns() returns (s: State)
    ensures Reachable(s) && s.gens == s.gen == s.lastGen == s.kLast == s.sig == 1
    ensures s.kBusy && s.task == Some(7) && s.cpu == User(7) && !s.wait && !s.midRun && s.ipi == NoIpi
    ensures s.log.lost == [] && s.log.sent == []
  {
    s := QuietReachable(0);
    s := Reach(s, RunTid(7));
    s := Reach(s, RunGen);
    s := IdleTakes(s);
    s := IdleStarts(s, true);
    s := Reach(s, PollDone);
    s := Reach(s, EnqueueIntr);
  }

  /** The iokernel makes a request and asks for a signal for it. */
  lemma AsksForNext(before: State) returns (s: State)
    requires Reachable(before) && !before.midRun && !before.wait && before.ipi.Handling?
    ensures var g := Add32(before.gens, 1);
            && Reachable(s) && s.gens == s.gen == s.sig == g && g in s.log.asked && s.ipi == Handling(true)
            && s.kLast == before.kLast && s.log.sent == before.log.sent && s.log.lost == before.log.lost
  {
    s := Reach(before, RunTid(9));
    s := Reach(s, RunGen);
    s := Reach(s, EnqueueIntr);
  }

  /** A signal for the next request, asked for while the core handles the one before, is never sent. */
  lemma RequestErased() returns (s: State)
    ensures Reachable(s) && s.gens == s.gen == 2 && s.kLast == 1 && 2 in s.log.asked && s.sig == 0
    ensures s.log.lost == [(2, 1)] && s.log.sent == [(1, 7)]
  {
    s := FirstTaskRuns();
    s := Reach(s, IpiLoad);
    s := AsksForNext(s);
    s := Reach(s, IpiClear);
  }
}
