/**
 Granting cores to kthreads in the iokernel: the three slots of every core, the arrays of
 active and of polled threads with their back-pointers, the list of idle threads, and the
 reference counts of the processes.
 */
module CoreGrant {
  import opened Wrappers
  import opened ListSets

  type Pid = nat
  type Tid = nat

  /** struct core_state. */
  datatype Core = Core(
    last: Option<Tid>, pendingTh: Option<Tid>, cur: Option<Tid>, idle: bool, pending: bool, wait: bool)

  const FREE_CORE := Core(None, None, None, false, false, false)
  const IDLE_CORE := Core(None, None, None, true, false, false)

  predicate Holds(c: Core, t: Tid) {
    c.last == Some(t) || c.pendingTh == Some(t) || c.cur == Some(t)
  }

  /** The bits of a core agree with its slots, and no thread is in two of them. */
  predicate CoreOk(c: Core) {
    && (!c.wait ==> c.last == None && !c.pending)
    && (!c.pending ==> c.pendingTh == None)
    && (c.idle ==> c.cur == None && !c.wait)
    && (c.cur.Some? ==> c.cur != c.last && c.cur != c.pendingTh)
    && (c.last.Some? ==> c.last != c.pendingTh)
  }

  // -------------------------------------------------------------- counting references

  type Owner = map<Tid, Pid>

  function Owns(owner: Owner, p: Pid, o: Option<Tid>): nat {
    if o.Some? && o.value in owner && owner[o.value] == p then 1 else 0
  }

  function CoreRefs(owner: Owner, p: Pid, c: Core): nat {
    Owns(owner, p, c.last) + Owns(owner, p, c.pendingTh) + Owns(owner, p, c.cur)
  }

  /** The slots of the first n cores that name a thread of p. */
  ghost function SlotRefs(owner: Owner, p: Pid, cores: seq<Core>, n: nat): nat
    requires n <= |cores|
  {
    if n == 0 then 0 else SlotRefs(owner, p, cores, n - 1) + CoreRefs(owner, p, cores[n - 1])
  }

  lemma {:induction false} SlotRefsUpdate(owner: Owner, p: Pid, cores: seq<Core>, n: nat, c: nat, core: Core)
    requires c < |cores| && n <= |cores|
    ensures SlotRefs(owner, p, cores[c := core], n)
            == SlotRefs(owner, p, cores, n)
               + if c < n then CoreRefs(owner, p, core) - CoreRefs(owner, p, cores[c]) else 0
    decreases n
  {
    if n > 0 {
      SlotRefsUpdate(owner, p, cores, n - 1, c, core);
    }
  }

  lemma {:induction false} SlotRefsPositive(owner: Owner, p: Pid, cores: seq<Core>, n: nat, c: nat, t: Tid)
    requires c < n <= |cores| && Holds(cores[c], t) && t in owner && owner[t] == p
    ensures SlotRefs(owner, p, cores, n) > 0
    decreases n
  {
    if c < n - 1 {
      SlotRefsPositive(owner, p, cores, n - 1, c, t);
    }
  }

  /** The first n polled threads that belong to p. */
  ghost function PollRefs(owner: Owner, p: Pid, ts: seq<Tid>, n: nat): nat
    requires n <= |ts|
  {
    if n == 0 then 0 else PollRefs(owner, p, ts, n - 1) + Owns(owner, p, Some(ts[n - 1]))
  }

  lemma {:induction false} PollRefsUpdate(owner: Owner, p: Pid, ts: seq<Tid>, ts': seq<Tid>, n: nat, i: nat, t: Tid)
    requires i < |ts| && n <= |ts| && n <= |ts'| && forall k :: 0 <= k < n ==> ts'[k] == if k == i then t else ts[k]
    ensures PollRefs(owner, p, ts', n)
            == PollRefs(owner, p, ts, n) + if i < n then Owns(owner, p, Some(t)) - Owns(owner, p, Some(ts[i])) else 0
    decreases n
  {
    if n > 0 {
      PollRefsUpdate(owner, p, ts, ts', n - 1, i, t);
    }
  }

  // ------------------------------------------------- arrays with back-pointers

  /** An array whose members know their own index: active_threads with at_idx, ts with ts_idx. */
  datatype Pool = Pool(arr: seq<Tid>, idx: map<Tid, nat>)

  ghost predicate PoolOk(a: Pool) {
    && (forall i :: 0 <= i < |a.arr| ==> a.arr[i] in a.idx && a.idx[a.arr[i]] == i)
    && (forall t :: t in a.idx ==> a.idx[t] < |a.arr| && a.arr[a.idx[t]] == t)
  }

  function Pushed(a: Pool, t: Tid): Pool {
    Pool(a.arr + [t], a.idx[t := |a.arr|])
  }

  /** The last member takes the place of the one removed. */
  function Removed(a: Pool, t: Tid): Pool {
    if t in a.idx && a.idx[t] < |a.arr| then
      var last := a.arr[|a.arr| - 1];
      Pool(a.arr[a.idx[t] := last][..|a.arr| - 1], a.idx[last := a.idx[t]] - {t})
    else
      a
  }

  lemma PushedOk(a: Pool, t: Tid)
    requires PoolOk(a) && t !in a.idx
    ensures PoolOk(Pushed(a, t)) && Pushed(a, t).idx.Keys == a.idx.Keys + {t}
  {
  }

  /** Removal by swapping keeps every remaining member's index right. */
  lemma RemovedOk(a: Pool, t: Tid)
    requires PoolOk(a) && t in a.idx
    ensures PoolOk(Removed(a, t)) && Removed(a, t).idx.Keys == a.idx.Keys - {t}
  {
    var last := a.arr[|a.arr| - 1];
    assert a.idx[last] == |a.arr| - 1;
  }

  lemma PushedRefs(owner: Owner, p: Pid, a: Pool, t: Tid)
    ensures PollRefs(owner, p, Pushed(a, t).arr, |a.arr| + 1)
            == PollRefs(owner, p, a.arr, |a.arr|) + Owns(owner, p, Some(t))
  {
    if a.arr != [] {
      PollRefsUpdate(owner, p, a.arr, Pushed(a, t).arr, |a.arr|, 0, a.arr[0]);
    }
  }

  lemma RemovedRefs(owner: Owner, p: Pid, a: Pool, t: Tid)
    requires PoolOk(a) && t in a.idx
    ensures PollRefs(owner, p, Removed(a, t).arr, |Removed(a, t).arr|)
            == PollRefs(owner, p, a.arr, |a.arr|) - Owns(owner, p, Some(t))
  {
    var n := |a.arr| - 1;
    PollRefsUpdate(owner, p, a.arr, Removed(a, t).arr, n, a.idx[t], a.arr[n]);
  }

  // ----------------------------------------------------------------- the state

  /** What does not change: which threads there are, who owns them, and which processes are not polled here. */
  datatype Config = Config(owner: Owner, threads: map<Pid, set<Tid>>, vfio: set<Pid>)

  ghost predicate ConfigOk(cfg: Config) {
    && (forall t :: t in cfg.owner ==> cfg.owner[t] in cfg.threads && t in cfg.threads[cfg.owner[t]])
    && (forall p, t :: p in cfg.threads && t in cfg.threads[p] ==> t in cfg.owner && cfg.owner[t] == p)
  }

  /** The scheduling part of struct proc. */
  datatype Proc = Proc(actives: Pool, idle: seq<Tid>)

  datatype State = State(
    cores: seq<Core>,
    procs: map<Pid, Proc>,
    active: set<Tid>,          // th->active
    coreOf: map<Tid, nat>,     // th->core
    polled: Pool,              // ts, nrts and ts_idx
    ref: map<Pid, int>,        // p->ref.cnt; a process at zero has been released
    clients: set<Pid>)         // dp.clients, each of which holds the initial reference

  /** The active threads are in the array, the others on the idle list. */
  ghost predicate ProcOk(threads: set<Tid>, active: set<Tid>, pr: Proc) {
    PoolOk(pr.actives) && pr.actives.idx.Keys == threads * active && Lists(threads - active, pr.idle)
  }

  ghost predicate ThreadsInv(cfg: Config, procs: map<Pid, Proc>, active: set<Tid>) {
    && active <= cfg.owner.Keys
    && procs.Keys == cfg.threads.Keys
    && forall p :: p in procs ==> ProcOk(cfg.threads[p], active, procs[p])
  }

  /** Each active thread is in exactly one slot, on the core it names; one thread may be in hand between two slots. */
  ghost predicate SlotsInv(cores: seq<Core>, active: set<Tid>, coreOf: map<Tid, nat>, hand: Option<Tid>) {
    && (forall c :: 0 <= c < |cores| ==> CoreOk(cores[c]))
    && (forall c, t :: 0 <= c < |cores| && Holds(cores[c], t) ==>
          t in active && t in coreOf && coreOf[t] == c && hand != Some(t))
    && (forall t :: t in active ==>
          t in coreOf && coreOf[t] < |cores| && (hand == Some(t) || Holds(cores[coreOf[t]], t)))
    && (hand.Some? ==> hand.value in active)
  }

  /** The polled threads know their index; every active thread of a polled process is among them. */
  ghost predicate PollInv(cfg: Config, polled: Pool, active: set<Tid>) {
    && PoolOk(polled)
    && polled.idx.Keys <= cfg.owner.Keys
    && forall t :: t in active && t in cfg.owner && cfg.owner[t] !in cfg.vfio ==> t in polled.idx
  }

  /** The references to p: as a client, from slots, from the polling array, and from the thread in hand. */
  ghost function Refs(cfg: Config, s: State, hand: Option<Tid>, p: Pid): nat {
    (if p in s.clients then 1 else 0) + SlotRefs(cfg.owner, p, s.cores, |s.cores|)
    + PollRefs(cfg.owner, p, s.polled.arr, |s.polled.arr|) + Owns(cfg.owner, p, hand)
  }

  ghost predicate RefInv(cfg: Config, s: State, hand: Option<Tid>) {
    && s.ref.Keys == cfg.threads.Keys
    && forall p :: p in s.ref ==> s.ref[p] == Refs(cfg, s, hand, p)
  }

  ghost predicate Inv(cfg: Config, s: State, hand: Option<Tid>) {
    && ConfigOk(cfg)
    && ThreadsInv(cfg, s.procs, s.active)
    && SlotsInv(s.cores, s.active, s.coreOf, hand)
    && PollInv(cfg, s.polled, s.active)
    && RefInv(cfg, s, hand)
  }

  // ------------------------------------------------------------------ main consequences

  function SlotsWith(c: Core, t: Tid): nat {
    (if c.last == Some(t) then 1 else 0) + (if c.pendingTh == Some(t) then 1 else 0)
    + (if c.cur == Some(t) then 1 else 0)
  }

  /** An active thread is in exactly one slot of the core its core field names, and in none of another core. */
  lemma ExactlyOneSlot(cfg: Config, s: State, t: Tid, c: nat)
    requires Inv(cfg, s, None) && c < |s.cores|
    ensures t in s.active ==> t in s.coreOf && s.coreOf[t] < |s.cores|
    ensures SlotsWith(s.cores[c], t) == if t in s.active && s.coreOf[t] == c then 1 else 0
  {
    assert Holds(s.cores[c], t) <==> SlotsWith(s.cores[c], t) > 0;
    assert CoreOk(s.cores[c]);
  }

  /** A process that has been released is named by no slot and no polled thread. */
  lemma ReleasedIsUnnamed(cfg: Config, s: State, p: Pid, t: Tid)
    requires Inv(cfg, s, None) && p in s.ref && s.ref[p] == 0 && t in cfg.threads[p]
    ensures p !in s.clients && t !in s.active && t !in s.polled.idx
    ensures forall c :: 0 <= c < |s.cores| ==> !Holds(s.cores[c], t)
  {
    if t in s.active {
      SlotRefsPositive(cfg.owner, p, s.cores, |s.cores|, s.coreOf[t], t);
    }
    if t in s.polled.idx {
      PollRefsPositive(cfg.owner, p, s.polled.arr, |s.polled.arr|, s.polled.idx[t]);
    }
  }

  lemma {:induction false} PollRefsPositive(owner: Owner, p: Pid, ts: seq<Tid>, n: nat, i: nat)
    requires i < n <= |ts| && ts[i] in owner && owner[ts[i]] == p
    ensures PollRefs(owner, p, ts, n) > 0
    decreases n
  {
    if i < n - 1 {
      PollRefsPositive(owner, p, ts, n - 1, i);
    }
  }

  // ------------------------------------------------------------- polling and references

  function Get(s: State, p: Pid): State
    requires p in s.ref
  {
    s.(ref := s.ref[p := s.ref[p] + 1])
  }

  function Put(s: State, p: Pid): State
    requires p in s.ref
  {
    s.(ref := s.ref[p := s.ref[p] - 1])
  }

  /** poll_thread. */
  function PollThread(cfg: Config, s: State, t: Tid): State
    requires t in cfg.owner && cfg.owner[t] in s.ref
  {
    if t in s.polled.idx then s else Get(s, cfg.owner[t]).(polled := Pushed(s.polled, t))
  }

  /** unpoll_thread. */
  function UnpollThread(cfg: Config, s: State, t: Tid): State
    requires t in cfg.owner && cfg.owner[t] in s.ref
  {
    if t !in s.polled.idx then s else Put(s.(polled := Removed(s.polled, t)), cfg.owner[t])
  }

  lemma PollThreadKeeps(cfg: Config, s: State, t: Tid)
    requires t in cfg.owner && cfg.owner[t] in s.ref
    ensures var s' := PollThread(cfg, s, t);
            && s'.procs == s.procs && s'.cores == s.cores && s'.active == s.active && s'.coreOf == s.coreOf
            && s'.clients == s.clients
  {
  }

  lemma PollThreadRef(cfg: Config, s: State, hand: Option<Tid>, t: Tid, p: Pid)
    requires RefInv(cfg, s, hand) && t in cfg.owner && cfg.owner[t] in s.ref && t !in s.polled.idx && p in s.ref
    ensures PollThread(cfg, s, t).ref[p] == Refs(cfg, PollThread(cfg, s, t), hand, p)
  {
    PushedRefs(cfg.owner, p, s.polled, t);
    assert s.ref[p] == Refs(cfg, s, hand, p);
  }

  lemma PollThreadRefs(cfg: Config, s: State, hand: Option<Tid>, t: Tid)
    requires ConfigOk(cfg) && PoolOk(s.polled) && RefInv(cfg, s, hand) && t in cfg.owner
    ensures RefInv(cfg, PollThread(cfg, s, t), hand) && PoolOk(PollThread(cfg, s, t).polled)
    ensures PollThread(cfg, s, t).polled.idx.Keys == s.polled.idx.Keys + {t}
  {
    if t !in s.polled.idx {
      PushedOk(s.polled, t);
      forall p | p in s.ref
        ensures PollThread(cfg, s, t).ref[p] == Refs(cfg, PollThread(cfg, s, t), hand, p)
      {
        PollThreadRef(cfg, s, hand, t, p);
      }
    }
  }

  lemma UnpollThreadRefs(cfg: Config, s: State, hand: Option<Tid>, t: Tid)
    requires ConfigOk(cfg) && PoolOk(s.polled) && RefInv(cfg, s, hand) && t in cfg.owner
    ensures RefInv(cfg, UnpollThread(cfg, s, t), hand) && PoolOk(UnpollThread(cfg, s, t).polled)
    ensures UnpollThread(cfg, s, t).polled.idx.Keys == s.polled.idx.Keys - {t}
  {
    if t in s.polled.idx {
      RemovedOk(s.polled, t);
      forall p | p in s.ref
        ensures UnpollThread(cfg, s, t).ref[p] == Refs(cfg, UnpollThread(cfg, s, t), hand, p)
      {
        RemovedRefs(cfg.owner, p, s.polled, t);
      }
    }
  }

  // ------------------------------------------------------- enabling and disabling a kthread

  lemma ProcEnable(threads: set<Tid>, active: set<Tid>, pr: Proc, t: Tid)
    requires ProcOk(threads, active, pr) && t in threads && t !in active
    ensures ProcOk(threads, active + {t}, Proc(Pushed(pr.actives, t), Without(pr.idle, t)))
  {
    PushedOk(pr.actives, t);
    ListsWithout(threads - active, pr.idle, t);
    assert threads - (active + {t}) == threads - active - {t};
    assert threads * (active + {t}) == threads * active + {t};
  }

  lemma ProcDisable(threads: set<Tid>, active: set<Tid>, pr: Proc, t: Tid)
    requires ProcOk(threads, active, pr) && t in threads && t in active
    ensures ProcOk(threads, active - {t}, Proc(Removed(pr.actives, t), [t] + pr.idle))
  {
    RemovedOk(pr.actives, t);
    ListsCons(threads - active, pr.idle, t);
    assert threads - (active - {t}) == threads - active + {t};
    assert threads * (active - {t}) == threads * active - {t};
  }

  /** A process does not notice the threads of others. */
  lemma ProcOther(threads: set<Tid>, active: set<Tid>, active': set<Tid>, pr: Proc, t: Tid)
    requires ProcOk(threads, active, pr) && t !in threads
    requires active' == active + {t} || active' == active - {t}
    ensures ProcOk(threads, active', pr)
  {
    assert threads - active' == threads - active;
    assert threads * active' == threads * active;
  }

  lemma ThreadsStep(cfg: Config, procs: map<Pid, Proc>, active: set<Tid>, active': set<Tid>, t: Tid, pr: Proc)
    requires ConfigOk(cfg) && ThreadsInv(cfg, procs, active) && t in cfg.owner
    requires active' == active + {t} || active' == active - {t}
    requires ProcOk(cfg.threads[cfg.owner[t]], active', pr)
    ensures ThreadsInv(cfg, procs[cfg.owner[t] := pr], active')
  {
    forall q | q in procs && q != cfg.owner[t]
      ensures ProcOk(cfg.threads[q], active', procs[q])
    {
      ProcOther(cfg.threads[q], active, active', procs[q], t);
    }
  }

  lemma SlotsEnable(cores: seq<Core>, active: set<Tid>, coreOf: map<Tid, nat>, t: Tid, core: nat)
    requires SlotsInv(cores, active, coreOf, None) && t !in active && core < |cores|
    ensures SlotsInv(cores, active + {t}, coreOf[t := core], Some(t))
  {
  }

  lemma SlotsDisable(cores: seq<Core>, active: set<Tid>, coreOf: map<Tid, nat>, t: Tid)
    requires SlotsInv(cores, active, coreOf, Some(t))
    ensures SlotsInv(cores, active - {t}, coreOf, None)
  {
  }

  /** The reference taken with the thread in hand. */
  lemma RefsGet(cfg: Config, s: State, s': State, t: Tid)
    requires RefInv(cfg, s, None) && t in cfg.owner && cfg.owner[t] in s.ref
    requires s'.ref == Get(s, cfg.owner[t]).ref
    requires s'.cores == s.cores && s'.polled == s.polled && s'.clients == s.clients
    ensures RefInv(cfg, s', Some(t))
  {
  }

  lemma RefsPut(cfg: Config, s: State, s': State, t: Tid)
    requires RefInv(cfg, s, Some(t)) && t in cfg.owner && cfg.owner[t] in s.ref
    requires s'.ref == Put(s, cfg.owner[t]).ref
    requires s'.cores == s.cores && s'.polled == s.polled && s'.clients == s.clients
    ensures RefInv(cfg, s', None) && s.ref[cfg.owner[t]] > 0
  {
  }

  /** proc_get and sched_enable_kthread, up to the polling array. */
  function Activated(cfg: Config, s: State, t: Tid, core: nat): State
    requires t in cfg.owner && cfg.owner[t] in s.ref && cfg.owner[t] in s.procs
  {
    var p := cfg.owner[t];
    var pr := Proc(Pushed(s.procs[p].actives, t), Without(s.procs[p].idle, t));
    Get(s, p).(active := s.active + {t}, coreOf := s.coreOf[t := core], procs := s.procs[p := pr])
  }

  /** proc_get and sched_enable_kthread. */
  function Enable(cfg: Config, s: State, t: Tid, core: nat): State
    requires t in cfg.owner && cfg.owner[t] in s.ref && cfg.owner[t] in s.procs
  {
    var s1 := Activated(cfg, s, t, core);
    if cfg.owner[t] in cfg.vfio then s1 else PollThread(cfg, s1, t)
  }

  lemma ActivatedInv(cfg: Config, s: State, t: Tid, core: nat)
    requires Inv(cfg, s, None) && t in cfg.owner && t !in s.active && core < |s.cores|
    ensures var s1 := Activated(cfg, s, t, core);
            && ThreadsInv(cfg, s1.procs, s1.active)
            && SlotsInv(s1.cores, s1.active, s1.coreOf, Some(t))
            && RefInv(cfg, s1, Some(t))
  {
    var p := cfg.owner[t];
    var pr := Proc(Pushed(s.procs[p].actives, t), Without(s.procs[p].idle, t));
    ProcEnable(cfg.threads[p], s.active, s.procs[p], t);
    ThreadsStep(cfg, s.procs, s.active, s.active + {t}, t, pr);
    SlotsEnable(s.cores, s.active, s.coreOf, t, core);
    RefsGet(cfg, s, Activated(cfg, s, t, core), t);
  }

  /** The polling array covers the active threads again once t is polled. */
  lemma PollCovers(cfg: Config, polled: Pool, polled': Pool, active: set<Tid>, t: Tid)
    requires PollInv(cfg, polled, active) && PoolOk(polled') && t in cfg.owner
    requires polled'.idx.Keys == if cfg.owner[t] in cfg.vfio then polled.idx.Keys else polled.idx.Keys + {t}
    ensures PollInv(cfg, polled', active + {t})
  {
  }

  /** Enabling takes the thread in hand. */
  lemma EnableInv(cfg: Config, s: State, t: Tid, core: nat)
    requires Inv(cfg, s, None) && t in cfg.owner && t !in s.active && core < |s.cores|
    ensures Inv(cfg, Enable(cfg, s, t, core), Some(t))
    ensures Enable(cfg, s, t, core).cores == s.cores && Enable(cfg, s, t, core).coreOf == s.coreOf[t := core]
    ensures Enable(cfg, s, t, core).clients == s.clients
  {
    var s1 := Activated(cfg, s, t, core);
    ActivatedInv(cfg, s, t, core);
    if cfg.owner[t] in cfg.vfio {
      PollCovers(cfg, s.polled, s.polled, s.active, t);
    } else {
      var s2 := PollThread(cfg, s1, t);
      PollThreadRefs(cfg, s1, Some(t), t);
      PollCovers(cfg, s.polled, s2.polled, s.active, t);
      PollThreadKeeps(cfg, s1, t);
    }
  }

  /** sched_disable_kthread, up to the polling array. */
  function Deactivated(cfg: Config, s: State, t: Tid): State
    requires t in cfg.owner && cfg.owner[t] in s.procs
  {
    var p := cfg.owner[t];
    s.(active := s.active - {t},
       procs := s.procs[p := Proc(Removed(s.procs[p].actives, t), [t] + s.procs[p].idle)])
  }

  /** sched_disable_kthread and proc_put; txEmpty says whether the thread has nothing left to transmit. */
  function Disable(cfg: Config, s: State, t: Tid, txEmpty: bool): State
    requires t in cfg.owner && cfg.owner[t] in s.ref && cfg.owner[t] in s.procs
  {
    var s1 := Deactivated(cfg, s, t);
    Put(if cfg.owner[t] !in cfg.vfio && txEmpty then UnpollThread(cfg, s1, t) else s1, cfg.owner[t])
  }

  lemma DeactivatedInv(cfg: Config, s: State, t: Tid)
    requires Inv(cfg, s, Some(t))
    ensures t in cfg.owner && cfg.owner[t] in s.ref && cfg.owner[t] in s.procs
    ensures var s1 := Deactivated(cfg, s, t);
            && ThreadsInv(cfg, s1.procs, s1.active)
            && SlotsInv(s1.cores, s1.active, s1.coreOf, None)
            && PollInv(cfg, s1.polled, s1.active)
            && RefInv(cfg, s1, Some(t))
  {
    var p := cfg.owner[t];
    var pr := Proc(Removed(s.procs[p].actives, t), [t] + s.procs[p].idle);
    ProcDisable(cfg.threads[p], s.active, s.procs[p], t);
    ThreadsStep(cfg, s.procs, s.active, s.active - {t}, t, pr);
    SlotsDisable(s.cores, s.active, s.coreOf, t);
    RefsSame(cfg, s, Deactivated(cfg, s, t), Some(t));
  }

  /** Only the slots, the polling array and the clients hold references. */
  lemma RefsSame(cfg: Config, s: State, s': State, hand: Option<Tid>)
    requires RefInv(cfg, s, hand)
    requires s'.ref == s.ref && s'.cores == s.cores && s'.polled == s.polled && s'.clients == s.clients
    ensures RefInv(cfg, s', hand)
  {
    forall p | p in s'.ref
      ensures s'.ref[p] == Refs(cfg, s', hand, p)
    {
      assert Refs(cfg, s', hand, p) == Refs(cfg, s, hand, p);
    }
  }

  /** Disabling consumes the thread in hand; the process still had a reference to drop. */
  lemma DisableInv(cfg: Config, s: State, t: Tid, txEmpty: bool)
    requires Inv(cfg, s, Some(t))
    ensures t in cfg.owner && cfg.owner[t] in s.ref && cfg.owner[t] in s.procs && s.ref[cfg.owner[t]] > 0
    ensures Inv(cfg, Disable(cfg, s, t, txEmpty), None)
    ensures Disable(cfg, s, t, txEmpty).cores == s.cores && Disable(cfg, s, t, txEmpty).clients == s.clients
  {
    DeactivatedInv(cfg, s, t);
    var s1 := Deactivated(cfg, s, t);
    if cfg.owner[t] !in cfg.vfio && txEmpty {
      UnpollThreadRefs(cfg, s1, Some(t), t);
      var s2 := UnpollThread(cfg, s1, t);
      RefsPut(cfg, s2, Put(s2, cfg.owner[t]), t);
    } else {
      RefsPut(cfg, s1, Put(s1, cfg.owner[t]), t);
    }
  }

  // -------------------------------------------------------------- moving between slots

  function WithCore(s: State, core: nat, c: Core): State
    requires core < |s.cores|
  {
    s.(cores := s.cores[core := c])
  }

  /** The threads of a core and the one in hand, whichever slot each is in. */
  ghost predicate SameThreads(c: Core, hand: Option<Tid>, c': Core, hand': Option<Tid>) {
    forall t: Tid :: Holds(c', t) || hand' == Some(t) <==> Holds(c, t) || hand == Some(t)
  }

  ghost predicate SameRefs(owner: Owner, c: Core, hand: Option<Tid>, c': Core, hand': Option<Tid>) {
    forall p: Pid :: CoreRefs(owner, p, c') + Owns(owner, p, hand') == CoreRefs(owner, p, c) + Owns(owner, p, hand)
  }

  lemma SlotsRearranged(cores: seq<Core>, active: set<Tid>, coreOf: map<Tid, nat>, core: nat, c': Core,
                        hand: Option<Tid>, hand': Option<Tid>)
    requires SlotsInv(cores, active, coreOf, hand) && core < |cores| && CoreOk(c')
    requires SameThreads(cores[core], hand, c', hand') && (hand'.Some? ==> !Holds(c', hand'.value))
    requires hand.Some? ==> coreOf[hand.value] == core
    ensures SlotsInv(cores[core := c'], active, coreOf, hand')
  {
  }

  lemma RefsRearranged(cfg: Config, s: State, core: nat, c': Core, hand: Option<Tid>, hand': Option<Tid>)
    requires RefInv(cfg, s, hand) && core < |s.cores| && SameRefs(cfg.owner, s.cores[core], hand, c', hand')
    ensures RefInv(cfg, WithCore(s, core, c'), hand')
  {
    forall p | p in s.ref
      ensures s.ref[p] == Refs(cfg, WithCore(s, core, c'), hand', p)
    {
      SlotRefsUpdate(cfg.owner, p, s.cores, |s.cores|, core, c');
      assert s.ref[p] == Refs(cfg, s, hand, p);
    }
  }

  /** Moving threads between the slots of one core and the hand keeps the invariant. */
  lemma Rearranged(cfg: Config, s: State, core: nat, c': Core, hand: Option<Tid>, hand': Option<Tid>)
    requires Inv(cfg, s, hand) && core < |s.cores| && CoreOk(c')
    requires SameThreads(s.cores[core], hand, c', hand') && (hand'.Some? ==> !Holds(c', hand'.value))
    requires SameRefs(cfg.owner, s.cores[core], hand, c', hand')
    requires hand.Some? ==> s.coreOf[hand.value] == core
    ensures Inv(cfg, WithCore(s, core, c'), hand')
  {
    SlotsRearranged(s.cores, s.active, s.coreOf, core, c', hand, hand');
    RefsRearranged(cfg, s, core, c', hand, hand');
  }

  // -------------------------------------------------------------------- __sched_run

  /** The slots after a run request for o. */
  function Requested(c: Core, o: Option<Tid>): Core {
    if c.wait then c.(pendingTh := o, pending := true)
    else c.(last := c.cur, cur := o, wait := true, idle := false)
  }

  /** A request that arrives while the core is busy replaces, and disables, the thread that was pending. */
  function Replaced(c: Core): Option<Tid> {
    if c.wait then c.pendingTh else None
  }

  lemma RequestedMoves(owner: Owner, c: Core, o: Option<Tid>)
    requires CoreOk(c) && (o.Some? ==> !Holds(c, o.value))
    ensures CoreOk(Requested(c, o))
    ensures SameThreads(c, o, Requested(c, o), Replaced(c)) && SameRefs(owner, c, o, Requested(c, o), Replaced(c))
    ensures Replaced(c).Some? ==> Holds(c, Replaced(c).value) && !Holds(Requested(c, o), Replaced(c).value)
  {
  }

  /** Every active thread has an owner that can be looked up. */
  ghost predicate Known(cfg: Config, s: State) {
    forall t :: t in s.active ==> t in cfg.owner && cfg.owner[t] in s.ref && cfg.owner[t] in s.procs
  }

  /** The thread taken from its slot is disabled. */
  function DropFrom(cfg: Config, s: State, core: nat, c: Core, dropped: Option<Tid>, txEmpty: bool): State
    requires core < |s.cores|
    requires dropped.Some? ==>
               dropped.value in cfg.owner && cfg.owner[dropped.value] in s.ref && cfg.owner[dropped.value] in s.procs
  {
    if dropped.Some? then Disable(cfg, WithCore(s, core, c), dropped.value, txEmpty) else WithCore(s, core, c)
  }

  /** Change the slots of a core; a thread that loses its slot is disabled. */
  lemma DropFromInv(cfg: Config, s: State, core: nat, c': Core, hand: Option<Tid>, dropped: Option<Tid>, txEmpty: bool)
    requires Inv(cfg, s, hand) && core < |s.cores| && CoreOk(c')
    requires SameThreads(s.cores[core], hand, c', dropped) && (dropped.Some? ==> !Holds(c', dropped.value))
    requires SameRefs(cfg.owner, s.cores[core], hand, c', dropped)
    requires hand.Some? ==> s.coreOf[hand.value] == core
    ensures dropped.Some? ==>
              dropped.value in cfg.owner && cfg.owner[dropped.value] in s.ref && cfg.owner[dropped.value] in s.procs
    ensures Inv(cfg, DropFrom(cfg, s, core, c', dropped, txEmpty), None)
    ensures DropFrom(cfg, s, core, c', dropped, txEmpty).cores == s.cores[core := c']
    ensures DropFrom(cfg, s, core, c', dropped, txEmpty).clients == s.clients
  {
    Rearranged(cfg, s, core, c', hand, dropped);
    if dropped.Some? {
      DisableInv(cfg, WithCore(s, core, c'), dropped.value, txEmpty);
    }
  }

  lemma HeldIsActive(cfg: Config, s: State, hand: Option<Tid>, core: nat)
    requires Inv(cfg, s, hand) && core < |s.cores|
    ensures CoreOk(s.cores[core])
    ensures forall t :: Holds(s.cores[core], t) ==> t in s.active && s.coreOf[t] == core && hand != Some(t)
    ensures Known(cfg, s)
  {
  }

  /** __sched_run with the thread o in hand. */
  lemma SchedRunInv(cfg: Config, s: State, o: Option<Tid>, core: nat, txEmpty: bool)
    requires Inv(cfg, s, o) && core < |s.cores| && (o.Some? ==> s.coreOf[o.value] == core)
    ensures Known(cfg, s) && (Replaced(s.cores[core]).Some? ==> Replaced(s.cores[core]).value in s.active)
    ensures var s' := DropFrom(cfg, s, core, Requested(s.cores[core], o), Replaced(s.cores[core]), txEmpty);
            && Inv(cfg, s', None)
            && s'.cores == s.cores[core := Requested(s.cores[core], o)]
            && s'.clients == s.clients
  {
    HeldIsActive(cfg, s, o, core);
    RequestedMoves(cfg.owner, s.cores[core], o);
    DropFromInv(cfg, s, core, Requested(s.cores[core], o), o, Replaced(s.cores[core]), txEmpty);
  }

  // ---------------------------------------------------------------- the fast pass

  /** The slots once the kernel has carried out the request; the thread that ran before is dropped. */
  function SwitchDone(c: Core): Core {
    if c.pending then c.(last := c.cur, cur := c.pendingTh, pendingTh := None, pending := false)
    else c.(last := None, wait := false)
  }

  function WentIdle(c: Core): Core {
    c.(cur := None, idle := true)
  }

  lemma SwitchDoneMoves(owner: Owner, c: Core)
    requires CoreOk(c) && c.wait
    ensures CoreOk(SwitchDone(c)) && SameThreads(c, None, SwitchDone(c), c.last)
    ensures SameRefs(owner, c, None, SwitchDone(c), c.last)
    ensures c.last.Some? ==> !Holds(SwitchDone(c), c.last.value)
  {
  }

  lemma WentIdleMoves(owner: Owner, c: Core)
    requires CoreOk(c) && !c.wait
    ensures CoreOk(WentIdle(c)) && SameThreads(c, None, WentIdle(c), c.cur)
    ensures SameRefs(owner, c, None, WentIdle(c), c.cur)
    ensures c.cur.Some? ==> !Holds(WentIdle(c), c.cur.value)
  {
  }

  /** Granting a core: enable the thread and request that it run. */
  function GrantTo(cfg: Config, s: State, t: Tid, core: nat, txEmpty: bool): State
    requires Inv(cfg, s, None) && t in cfg.owner && t !in s.active && core < |s.cores|
  {
    EnableInv(cfg, s, t, core);
    var s1 := Enable(cfg, s, t, core);
    SchedRunInv(cfg, s1, Some(t), core, txEmpty);
    DropFrom(cfg, s1, core, Requested(s1.cores[core], Some(t)), Replaced(s1.cores[core]), txEmpty)
  }

  lemma GrantInv(cfg: Config, s: State, t: Tid, core: nat, txEmpty: bool)
    requires Inv(cfg, s, None) && t in cfg.owner && t !in s.active && core < |s.cores|
    ensures Inv(cfg, GrantTo(cfg, s, t, core, txEmpty), None)
    ensures GrantTo(cfg, s, t, core, txEmpty).cores == s.cores[core := Requested(s.cores[core], Some(t))]
    ensures GrantTo(cfg, s, t, core, txEmpty).clients == s.clients
  {
    EnableInv(cfg, s, t, core);
    var s1 := Enable(cfg, s, t, core);
    SchedRunInv(cfg, s1, Some(t), core, txEmpty);
  }

  /** Idling a core is a request to run no thread. */
  function IdleOn(cfg: Config, s: State, core: nat, txEmpty: bool): State
    requires Inv(cfg, s, None) && core < |s.cores|
  {
    SchedRunInv(cfg, s, None, core, txEmpty);
    DropFrom(cfg, s, core, Requested(s.cores[core], None), Replaced(s.cores[core]), txEmpty)
  }

  lemma IdleOnInv(cfg: Config, s: State, core: nat, txEmpty: bool)
    requires Inv(cfg, s, None) && core < |s.cores|
    ensures Inv(cfg, IdleOn(cfg, s, core, txEmpty), None)
    ensures IdleOn(cfg, s, core, txEmpty).cores == s.cores[core := Requested(s.cores[core], None)]
    ensures IdleOn(cfg, s, core, txEmpty).clients == s.clients
  {
    SchedRunInv(cfg, s, None, core, txEmpty);
  }

  /** What the fast pass does when the kernel reports that the last request was carried out. */
  function AfterSwitch(cfg: Config, s: State, core: nat, txEmpty: bool): State
    requires Inv(cfg, s, None) && core < |s.cores|
  {
    HeldIsActive(cfg, s, None, core);
    DropFrom(cfg, s, core, SwitchDone(s.cores[core]), s.cores[core].last, txEmpty)
  }

  lemma AfterSwitchInv(cfg: Config, s: State, core: nat, txEmpty: bool)
    requires Inv(cfg, s, None) && core < |s.cores| && s.cores[core].wait
    ensures var s' := AfterSwitch(cfg, s, core, txEmpty);
            && Inv(cfg, s', None)
            && s'.cores == s.cores[core := SwitchDone(s.cores[core])]
            && s'.clients == s.clients
  {
    HeldIsActive(cfg, s, None, core);
    SwitchDoneMoves(cfg.owner, s.cores[core]);
    DropFromInv(cfg, s, core, SwitchDone(s.cores[core]), None, s.cores[core].last, txEmpty);
  }

  /** What the fast pass does when the kernel reports an idle core and the thread is not woken again at once. */
  function AfterIdle(cfg: Config, s: State, core: nat, txEmpty: bool): State
    requires Inv(cfg, s, None) && core < |s.cores|
  {
    HeldIsActive(cfg, s, None, core);
    DropFrom(cfg, s, core, WentIdle(s.cores[core]), s.cores[core].cur, txEmpty)
  }

  lemma AfterIdleInv(cfg: Config, s: State, core: nat, txEmpty: bool)
    requires Inv(cfg, s, None) && core < |s.cores| && !s.cores[core].wait
    ensures var s' := AfterIdle(cfg, s, core, txEmpty);
            && Inv(cfg, s', None)
            && s'.cores == s.cores[core := WentIdle(s.cores[core])]
            && s'.clients == s.clients
  {
    HeldIsActive(cfg, s, None, core);
    WentIdleMoves(cfg.owner, s.cores[core]);
    DropFromInv(cfg, s, core, WentIdle(s.cores[core]), None, s.cores[core].cur, txEmpty);
  }

  /** sched_try_fast_rewake: the same thread is requested again. */
  lemma RewakeInv(cfg: Config, s: State, core: nat)
    requires Inv(cfg, s, None) && core < |s.cores| && !s.cores[core].idle
    ensures Inv(cfg, WithCore(s, core, s.cores[core].(wait := true)), None)
  {
    HeldIsActive(cfg, s, None, core);
    Rearranged(cfg, s, core, s.cores[core].(wait := true), None, None);
  }

  /** The transmit path drops a drained thread that is no longer active. */
  lemma UnpollInv(cfg: Config, s: State, t: Tid)
    requires Inv(cfg, s, None) && t in cfg.owner && t !in s.active
    ensures cfg.owner[t] in s.ref && Inv(cfg, UnpollThread(cfg, s, t), None)
  {
    UnpollThreadRefs(cfg, s, None, t);
  }

  /** A new client starts with one reference. */
  lemma AddClientInv(cfg: Config, s: State, p: Pid)
    requires Inv(cfg, s, None) && p in s.ref && s.ref[p] == 0
    ensures p !in s.clients && Inv(cfg, Get(s.(clients := s.clients + {p}), p), None)
  {
    assert s.ref[p] == Refs(cfg, s, None, p);
    var s' := Get(s.(clients := s.clients + {p}), p);
    forall q | q in s'.ref
      ensures s'.ref[q] == Refs(cfg, s', None, q)
    {
      assert s.ref[q] == Refs(cfg, s, None, q);
    }
  }

  /** A removed client gives its reference back; it is released only if nothing else names it. */
  lemma RemoveClientInv(cfg: Config, s: State, p: Pid)
    requires Inv(cfg, s, None) && p in s.clients && p in s.ref
    ensures s.ref[p] > 0 && Inv(cfg, Put(s.(clients := s.clients - {p}), p), None)
  {
    var s' := Put(s.(clients := s.clients - {p}), p);
    forall q | q in s'.ref
      ensures s'.ref[q] == Refs(cfg, s', None, q)
    {
      assert s.ref[q] == Refs(cfg, s, None, q);
    }
  }

  function Boot(cfg: Config, ncpu: nat, idle: map<Pid, seq<Tid>>): State {
    State(seq(ncpu, _ => FREE_CORE), map p | p in idle :: Proc(Pool([], map[]), idle[p]), {}, map[],
          Pool([], map[]), map p | p in cfg.threads :: 0, {})
  }

  lemma BootInv(cfg: Config, ncpu: nat, idle: map<Pid, seq<Tid>>)
    requires ConfigOk(cfg) && idle.Keys == cfg.threads.Keys && forall p :: p in idle ==> Lists(cfg.threads[p], idle[p])
    ensures Inv(cfg, Boot(cfg, ncpu, idle), None)
  {
    var s := Boot(cfg, ncpu, idle);
    forall p | p in s.ref
      ensures s.ref[p] == Refs(cfg, s, None, p)
    {
      NoSlotRefs(cfg.owner, p, s.cores, |s.cores|);
    }
    forall p | p in s.procs
      ensures ProcOk(cfg.threads[p], s.active, s.procs[p])
    {
      assert cfg.threads[p] - s.active == cfg.threads[p] && cfg.threads[p] * s.active == {};
    }
  }

  lemma {:induction false} NoSlotRefs(owner: Owner, p: Pid, cores: seq<Core>, n: nat)
    requires n <= |cores| && forall c :: 0 <= c < |cores| ==> cores[c] == FREE_CORE
    ensures SlotRefs(owner, p, cores, n) == 0
    decreases n
  {
    if n > 0 {
      NoSlotRefs(owner, p, cores, n - 1);
    }
  }

  // ----------------------------------------------------------- choosing a kthread

  predicate LastRanOn(coreOf: map<Tid, nat>, t: Tid, core: nat) {
    t in coreOf && coreOf[t] == core
  }

  /** sched_pick_kthread: an idle thread that last ran on the core, else on its sibling, else the tail of the list. */
  method PickKthread(idle: seq<Tid>, coreOf: map<Tid, nat>, core: nat, sib: nat, noht: bool) returns (i: nat)
    requires idle != []
    ensures i < |idle|
    ensures forall j :: 0 <= j < |idle| && LastRanOn(coreOf, idle[j], core) ==>
              i <= j && LastRanOn(coreOf, idle[i], core)
    ensures (forall j :: 0 <= j < |idle| ==> !LastRanOn(coreOf, idle[j], core)) ==>
              && (noht ==> i == |idle| - 1)
              && (!noht && (forall j :: 0 <= j < |idle| ==> !LastRanOn(coreOf, idle[j], sib)) ==> i == |idle| - 1)
              && (!noht ==> forall j :: 0 <= j < |idle| && LastRanOn(coreOf, idle[j], sib) ==>
                    i <= j && LastRanOn(coreOf, idle[i], sib))
  {
    for k := 0 to |idle|
      invariant forall j :: 0 <= j < k ==> !LastRanOn(coreOf, idle[j], core)
    {
      if LastRanOn(coreOf, idle[k], core) {
        return k;
      }
    }
    if !noht {
      for k := 0 to |idle|
        invariant forall j :: 0 <= j < k ==> !LastRanOn(coreOf, idle[j], sib)
      {
        if LastRanOn(coreOf, idle[k], sib) {
          return k;
        }
      }
    }
    return |idle| - 1;
  }

  lemma IdleThread(cfg: Config, s: State, p: Pid, i: nat)
    requires Inv(cfg, s, None) && p in s.procs && i < |s.procs[p].idle|
    ensures s.procs[p].idle[i] in cfg.owner && cfg.owner[s.procs[p].idle[i]] == p && s.procs[p].idle[i] !in s.active
  {
    assert ProcOk(cfg.threads[p], s.active, s.procs[p]);
    ListsAt(cfg.threads[p] - s.active, s.procs[p].idle, i);
  }

  ghost predicate OthersKept(s: State, s': State, core: nat) {
    |s'.cores| == |s.cores| && forall c :: 0 <= c < |s.cores| && c != core ==> s'.cores[c] == s.cores[c]
  }

  /** A core after the first half of the fast pass. */
  ghost function SwitchChecked(c: Core, runDone: bool): Core {
    if c.wait && runDone then SwitchDone(c) else c
  }

  /** The fast pass finds that a core went idle, unless it can hand it back to its thread at once. */
  ghost predicate GoesIdle(c: Core, sleeping: bool, rewake: bool) {
    !c.wait && !c.idle && sleeping && !(c.cur.Some? && rewake)
  }

  /** A core after the second half of the fast pass. */
  ghost function IdleChecked(c: Core, sleeping: bool, rewake: bool): Core {
    if GoesIdle(c, sleeping, rewake) then WentIdle(c)
    else if !c.wait && !c.idle && sleeping then c.(wait := true)
    else c
  }

  /** What the fast pass makes of one core, and whether it reports it as newly idle. */
  ghost predicate Passed(c: Core, c': Core, runDone: bool, sleeping: bool, rewake: bool, idle: bool) {
    var checked := SwitchChecked(c, runDone);
    c' == IdleChecked(checked, sleeping, rewake) && (idle <==> GoesIdle(checked, sleeping, rewake))
  }

  // -------------------------------------------------------------------- the iokernel

  datatype Outcome = Granted(thread: Tid) | Idled | Invalid

  class Iokernel {
    const cfg: Config
    const online: set<nat>       // sched_allowed_cores
    const allowed: seq<nat>      // sched_cores_tbl
    const sibling: seq<nat>      // sched_siblings
    const noht: bool
    var s: State

    ghost predicate Valid()
      reads this
    {
      && Inv(cfg, s, None)
      && Lists(online, allowed)
      && (forall c :: c in online ==> c < |s.cores|)
      && |sibling| == |s.cores|
    }

    constructor (cfg: Config, online: set<nat>, allowed: seq<nat>, sibling: seq<nat>, noht: bool,
                 idle: map<Pid, seq<Tid>>)
      requires ConfigOk(cfg) && Lists(online, allowed) && (forall c :: c in online ==> c < |sibling|)
      requires idle.Keys == cfg.threads.Keys && forall p :: p in idle ==> Lists(cfg.threads[p], idle[p])
      ensures Valid() && this.cfg == cfg && this.online == online && s == Boot(cfg, |sibling|, idle)
    {
      this.cfg, this.online, this.allowed, this.sibling, this.noht := cfg, online, allowed, sibling, noht;
      s := Boot(cfg, |sibling|, idle);
      BootInv(cfg, |sibling|, idle);
    }

    /** sched_run_on_core: a process that is still a client gets the core for one of its idle threads. */
    method RunOnCore(p: Pid, core: nat, txEmpty: bool) returns (r: Outcome)
      requires Valid() && p in s.clients && p in s.procs
      modifies this
      ensures Valid()
      ensures r.Invalid? <==> old(s.procs[p].idle) == [] || core !in online
      ensures r.Invalid? ==> s == old(s)
      ensures !r.Invalid? ==>
                && r.Granted? && r.thread in cfg.owner && cfg.owner[r.thread] == p && r.thread !in old(s.active)
                && s == GrantTo(cfg, old(s), r.thread, core, txEmpty)
    {
      if s.procs[p].idle == [] || core !in online {
        return Invalid;
      }
      var i := PickKthread(s.procs[p].idle, s.coreOf, core, sibling[core], noht);
      IdleThread(cfg, s, p, i);
      var t := s.procs[p].idle[i];
      GrantInv(cfg, s, t, core, txEmpty);
      s := GrantTo(cfg, s, t, core, txEmpty);
      return Granted(t);
    }

    /** sched_idle_on_core. */
    method IdleOnCore(core: nat, txEmpty: bool) returns (r: Outcome)
      requires Valid()
      modifies this
      ensures Valid()
      ensures core !in online ==> r == Invalid && s == old(s)
      ensures core in online ==> r == Idled && s == IdleOn(cfg, old(s), core, txEmpty)
    {
      if core !in online {
        return Invalid;
      }
      IdleOnInv(cfg, s, core, txEmpty);
      s := IdleOn(cfg, s, core, txEmpty);
      return Idled;
    }

    /** The first half of the fast pass for one core. */
    method PollSwitch(core: nat, runDone: bool, txEmpty: bool)
      requires Valid() && core in online
      modifies this
      ensures Valid()
      ensures s == if old(s.cores[core].wait) && runDone then AfterSwitch(cfg, old(s), core, txEmpty) else old(s)
      ensures OthersKept(old(s), s, core) && s.cores[core] == SwitchChecked(old(s.cores[core]), runDone)
    {
      if s.cores[core].wait && runDone {
        AfterSwitchInv(cfg, s, core, txEmpty);
        s := AfterSwitch(cfg, s, core, txEmpty);
      }
    }

    /** The second half of the fast pass for one core; answers whether the core is newly idle. */
    method PollIdle(core: nat, sleeping: bool, rewake: bool, txEmpty: bool) returns (idle: bool)
      requires Valid() && core in online
      modifies this
      ensures Valid()
      ensures idle <==> old(GoesIdle(s.cores[core], sleeping, rewake))
      ensures idle ==> s == AfterIdle(cfg, old(s), core, txEmpty) && s.cores[core] == IDLE_CORE
      ensures !idle ==> s == WithCore(old(s), core, s.cores[core])
      ensures OthersKept(old(s), s, core) && s.cores[core] == IdleChecked(old(s.cores[core]), sleeping, rewake)
    {
      if s.cores[core].wait || s.cores[core].idle || !sleeping {
        return false;
      }
      if s.cores[core].cur.Some? && rewake {
        RewakeInv(cfg, s, core);
        s := WithCore(s, core, s.cores[core].(wait := true));
        return false;
      }
      HeldIsActive(cfg, s, None, core);
      AfterIdleInv(cfg, s, core, txEmpty);
      s := AfterIdle(cfg, s, core, txEmpty);
      return true;
    }

    /** The fast pass for one core. */
    method PollCore(core: nat, runDone: bool, sleeping: bool, rewake: bool) returns (idle: bool)
      requires Valid() && core in online
      modifies this
      ensures Valid() && OthersKept(old(s), s, core)
      ensures Passed(old(s.cores[core]), s.cores[core], runDone, sleeping, rewake, idle)
      ensures idle ==> s.cores[core] == IDLE_CORE
    {
      var txEmpty: bool, txEmptyToo: bool := *, *;
      PollSwitch(core, runDone, txEmpty);
      idle := PollIdle(core, sleeping, rewake, txEmptyToo);
    }

    /** The fast pass of sched_poll: each core moves on by itself, and exactly those that went idle are reported. */
    method FastPass(runDone: set<nat>, sleeping: set<nat>, rewake: set<nat>) returns (idle: set<nat>)
      requires Valid()
      modifies this
      ensures Valid() && |s.cores| == |old(s.cores)| && idle <= online
      ensures forall c :: 0 <= c < |s.cores| && c !in online ==> s.cores[c] == old(s.cores)[c]
      ensures forall c :: c in online ==>
                Passed(old(s.cores)[c], s.cores[c], c in runDone, c in sleeping, c in rewake, c in idle)
      ensures forall c :: c in idle ==> s.cores[c] == IDLE_CORE
    {
      idle := {};
      ghost var todo := online;
      assert allowed[0..] == allowed;
      for i := 0 to |allowed|
        invariant Valid() && |s.cores| == |old(s.cores)|
        invariant todo <= online && Lists(todo, allowed[i..]) && idle <= online - todo
        invariant forall c :: 0 <= c < |s.cores| && (c in online ==> c in todo) ==> s.cores[c] == old(s.cores)[c]
        invariant forall c :: c in online && c !in todo ==>
                    Passed(old(s.cores)[c], s.cores[c], c in runDone, c in sleeping, c in rewake, c in idle)
        invariant forall c :: c in idle ==> s.cores[c] == IDLE_CORE
      {
        var core := allowed[i];
        assert allowed[i..][1..] == allowed[i + 1..];
        var went := PollCore(core, core in runDone, core in sleeping, core in rewake);
        if went {
          idle := idle + {core};
        }
        todo := todo - {core};
      }
    }

    /** The end of tx_drain_queue: an inactive thread with nothing more to send is polled no longer. */
    method TxDrained(t: Tid)
      requires Valid() && t in cfg.owner
      modifies this
      ensures Valid()
      ensures t in old(s.active) ==> s == old(s)
      ensures t !in old(s.active) ==> s == UnpollThread(cfg, old(s), t) && t !in s.polled.idx
    {
      if t !in s.active {
        UnpollInv(cfg, s, t);
        UnpollThreadRefs(cfg, s, None, t);
        s := UnpollThread(cfg, s, t);
      }
    }

    method AddClient(p: Pid)
      requires Valid() && p in s.ref && s.ref[p] == 0
      modifies this
      ensures Valid() && s == Get(old(s).(clients := old(s.clients) + {p}), p)
    {
      AddClientInv(cfg, s, p);
      s := Get(s.(clients := s.clients + {p}), p);
    }

    /** dp_clients_remove_client drops the initial reference; the process outlives its cores. */
    method RemoveClient(p: Pid) returns (released: bool)
      requires Valid() && p in s.clients && p in s.ref
      modifies this
      ensures Valid() && s == Put(old(s).(clients := old(s.clients) - {p}), p)
      ensures released <==> s.ref[p] == 0
    {
      RemoveClientInv(cfg, s, p);
      s := Put(s.(clients := s.clients - {p}), p);
      released := s.ref[p] == 0;
    }
  }
}
