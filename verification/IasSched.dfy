/**
 The interference-aware scheduler as it runs: attaching and detaching processes,
 granting and idling cores, congestion and starvation marks, and the hyperthread and
 bandwidth subcontrollers. Calls into the low-level scheduler may fail at any time.
 */
module IasSched {
  import opened Wrappers
  import opened ListSets
  import opened IasPolicy
  import opened IasInvariants
  import opened IasReserve

  const LOC_EVICTED_US := 100

  datatype AddResult = Added(core: nat) | NoCore | Busy

  datatype AttachResult = Attached | TooManyGuaranteed | OddGuarantee | NoReservation

  /** A call from the rest of the iokernel, with the answers the environment gives during it. */
  datatype Op =
    | AttachProc(p: Pid, guaranteed: nat, max: nat, isLc: bool, htPunish: bool)
    | DetachProc(p: Pid)
    | CoreNeeded(p: Pid)
    | Congested(p: Pid, qdelayUs: nat, standingQueue: bool, maxDelayUs: nat, parkedBusy: bool)
    | Poll(nowUs: nat, newlyIdle: set<nat>, due: bool, nobw: bool, throttle: bool, est: seq<real>, share: real,
           arrived: set<nat>, used: seq<real>, order: seq<nat>)

  class Scheduler {
    const ncpu: nat
    const online: set<nat>         // sched_allowed_cores
    const allowed: seq<nat>        // sched_cores_tbl, the same cores in order
    const sibling: seq<nat>        // sched_siblings
    const noht: bool
    const preferSelfpair: bool

    var now: nat                   // now_us
    var reg: Registry
    var m: Machine
    var limit: map<Pid, int>       // threads_limit
    var bwLimited: set<Pid>        // is_bwlimited
    // the hyperthread controller
    var budget: seq<real>          // ias_ht_percore
    var punished: set<nat>         // ias_ht_punished_cores
    var punishCount: nat
    var relaxCount: nat
    // the bandwidth controller: the generations in its two sample arrays, and its state
    var start: seq<int>
    var end: seq<int>
    var bwState: BwState

    /** The core tables as sched_init leaves them. */
    ghost predicate Static() {
      && Lists(online, allowed)
      && (forall c :: c in online ==> c < ncpu)
      && |sibling| == ncpu
      && (!noht ==> forall c :: 0 <= c < ncpu ==> sibling[c] < ncpu)
    }

    ghost predicate Shape()
      reads this`m, this`start, this`end, this`budget
    {
      Static() && |m.cores| == |m.gen| == |start| == |end| == |budget| == ncpu
    }

    /** The core accounting and the marks. */
    ghost predicate Running()
      reads this`m, this`reg, this`start, this`end, this`budget
    {
      Shape() && MachineOk(reg.spec, m, online)
    }

    /** The punishment counters say how many cores are punished. */
    ghost predicate Counted()
      reads this`punished, this`punishCount, this`relaxCount
    {
      punishCount == relaxCount + |punished|
    }

    /** What granting and releasing cores depends on and keeps. */
    ghost predicate Working()
      reads this`m, this`reg, this`start, this`end, this`budget, this`limit,
            this`punished, this`punishCount, this`relaxCount
    {
      Running() && Counted() && limit.Keys == reg.spec.Keys
    }

    /** What attaching, detaching and throttling alone can change: admissions and limits. */
    ghost predicate Settled()
      reads this`reg, this`limit, this`bwLimited
    {
      && RegistryOk(reg, online)
      && LimitsOk(reg.spec, limit, bwLimited)
    }

    /** Accounting, admission, marks, limits and punishments, in every state the scheduler can be in. */
    ghost predicate Valid()
      reads this`m, this`reg, this`start, this`end, this`budget, this`limit, this`bwLimited,
            this`punished, this`punishCount, this`relaxCount
    {
      Working() && Settled()
    }

    /** ias_init: nobody is attached, and every core that is not ours counts as reserved. */
    constructor (ncpu: nat, online: set<nat>, allowed: seq<nat>, sibling: seq<nat>, noht: bool, preferSelfpair: bool)
      requires Lists(online, allowed) && |sibling| == ncpu
      requires (forall c :: c in online ==> c < ncpu) && (!noht ==> forall c :: 0 <= c < ncpu ==> sibling[c] < ncpu)
      ensures Valid() && Sampled() && ReservationsOk()
      ensures this.ncpu == ncpu && this.online == online && this.allowed == allowed && this.sibling == sibling
      ensures this.noht == noht && reg.spec == map[]
    {
      this.ncpu, this.online, this.allowed, this.sibling := ncpu, online, allowed, sibling;
      this.noht, this.preferSelfpair := noht, preferSelfpair;
      now, budget, punished, punishCount, relaxCount := 0, seq(ncpu, _ => 0.0), {}, 0, 0;
      reg, m := Unattached(ncpu, online), Unused(ncpu);
      limit, bwLimited := map[], {};
      start, end, bwState := seq(ncpu, _ => 0), seq(ncpu, _ => 0), Relax;
      UnusedOk(ncpu, online);
      if Mutual(online, sibling, noht) {
        UnattachedReserved(ncpu, online, sibling, noht);
      }
    }

    // ------------------------------------------------------------ moving a core

    /**
     ias_run_kthread_on_core, all or nothing. The process may have no thread to spare, and the
     low-level scheduler may refuse; it always refuses a core that is not ours.
     */
    method RunKthreadOnCore(p: Pid, core: nat) returns (r: AddResult)
      requires Running() && p in reg.spec && core < ncpu
      modifies this`m
      ensures Running() && Tracked(old(m), m)
      ensures || (r == Busy && m == old(m))
              || (r == Added(core) && core in online && m == RunOn(old(m), p, core, now))
    {
      var available: bool, accepted: bool := *, *;
      if !available || !accepted || core !in online {
        return Busy;
      }
      RunOnOk(reg.spec, m, online, p, core, now);
      m := RunOn(m, p, core, now);
      return Added(core);
    }

    /** ias_idle_placeholder_on_core: idle the core but keep it charged to p, which must not be starved. */
    method IdlePlaceholderOnCore(p: Pid, core: nat) returns (ok: bool)
      requires Running() && p in reg.spec && p !in m.starved.flags && core < ncpu
      modifies this`m
      ensures Running() && Tracked(old(m), m)
      ensures core in old(m).idle ==> ok
      ensures if ok then core in online && m == HoldFor(old(m), p, core, now) else m == old(m)
    {
      var accepted: bool := *;
      if core !in m.idle && (!accepted || core !in online) {
        return false;
      }
      HoldForOk(reg.spec, m, online, p, core, now);
      m := HoldFor(m, p, core, now);
      return true;
    }

    /** ias_idle_on_core. */
    method IdleOnCore(core: nat) returns (ok: bool)
      requires Running() && core < ncpu
      modifies this`m
      ensures Running() && Tracked(old(m), m)
      ensures core in old(m).idle ==> ok
      ensures if ok then core in online && m == IdleOn(old(m), core, now) else m == old(m)
    {
      var accepted: bool := *;
      if core !in m.idle && (!accepted || core !in online) {
        return false;
      }
      IdleOnOk(reg.spec, m, online, core, now);
      m := IdleOn(m, core, now);
      return true;
    }

    // ---------------------------------------------------------- choosing a core

    /** The time the process last left the core. */
    function LastUs(p: Pid, core: nat): nat
      reads this`m
    {
      if (p, core) in m.lastUs then m.lastUs[(p, core)] else 0
    }

    /** ias_locality_score; a clock that ran backwards reads as a very long time. */
    function LocalityScore(p: Pid, core: nat): (s: real)
      requires Shape() && core < ncpu
      reads this
      ensures 0.0 <= s <= 1.0
    {
      if !noht && m.cores[sibling[core]] == Some(p) then 1.0
      else
        var sib := if noht then 0 else LastUs(p, sibling[core]);
        var last := if LastUs(p, core) >= sib then LastUs(p, core) else sib;
        if now < last || now - last >= LOC_EVICTED_US then 0.0
        else (LOC_EVICTED_US - (now - last)) as real / LOC_EVICTED_US as real
    }

    /** ias_core_score. */
    function CoreScore(p: Pid, core: nat): (s: real)
      requires Shape() && core < ncpu && p in reg.spec
      reads this
      ensures 0.0 <= s
    {
      var s := LocalityScore(p, core) + if core in reg.spec[p].reserved then 7.0 else 0.0;
      if noht then s
      else
        var sib := m.cores[sibling[core]];
        var s1 := if !preferSelfpair && sib != Some(p) then
                    s + 3.0 + if sib == None && m.cores[core] == None then 2.0 else 0.0
                  else s;
        s1 + 1.0 - (if budget[sibling[core]] < 1.0 then budget[sibling[core]] else 1.0)
    }

    /** A latency-critical process with fewer cores than it was promised. */
    ghost predicate BelowGuarantee(p: Pid)
      requires p in reg.spec && m.active.Keys == reg.spec.Keys
      reads this
    {
      reg.spec[p].isLc && m.active[p] < reg.spec[p].guaranteed
    }

    /** A latency-critical process below its guarantee can always take a core. */
    lemma GuaranteedTakes(p: Pid)
      requires Valid() && p in reg.spec && BelowGuarantee(p)
      ensures exists c :: MayTake(reg.spec, m, online, p, c)
    {
      GuaranteedFindsCore(reg.spec, m.active, m.cores, reg.all, online, p);
      var c :| c in online && CanPreempt(reg.spec, m.active, m.cores, p, c);
      assert MayTake(reg.spec, m, online, p, c);
    }

    /** ias_choose_core: the best core that p may preempt, or ncpu when there is none. */
    method ChooseCore(p: Pid) returns (core: nat)
      requires Shape() && m.active.Keys == reg.spec.Keys && p in reg.spec
      ensures core == ncpu || MayTake(reg.spec, m, online, p, core)
      ensures core == ncpu ==> forall c :: !MayTake(reg.spec, m, online, p, c)
      ensures core < ncpu ==>
                forall c: nat :: c < ncpu && MayTake(reg.spec, m, online, p, c) ==>
                  CoreScore(p, c) <= CoreScore(p, core)
    {
      core := ncpu;
      var bestScore := -1.0;
      for i := 0 to |allowed|
        invariant core == ncpu || (MayTake(reg.spec, m, online, p, core) && bestScore == CoreScore(p, core))
        invariant core == ncpu ==> bestScore == -1.0
        invariant forall j :: 0 <= j < i ==> allowed[j] in online
        invariant forall j :: 0 <= j < i && MayTake(reg.spec, m, online, p, allowed[j]) ==>
                    CoreScore(p, allowed[j]) <= bestScore
      {
        ListsAt(online, allowed, i);
        if CanPreempt(reg.spec, m.active, m.cores, p, allowed[i]) {
          var score := CoreScore(p, allowed[i]);
          if score > bestScore {
            bestScore, core := score, allowed[i];
          }
        }
      }
      ListsMeans(online, allowed);
    }

    /** A core that will not be punished soon. */
    predicate Spare(core: nat)
      requires |sibling| == ncpu && core < ncpu && |budget| == ncpu && (!noht ==> sibling[core] < ncpu)
      reads this
    {
      noht || budget[sibling[core]] < 1.0
    }

    /** ias_can_add_kthread. */
    method CanAddKthread(p: Pid, ignorePunish: bool) returns (r: bool)
      requires Shape() && m.active.Keys == reg.spec.Keys && p in reg.spec
      ensures r <==> exists c :: MayTake(reg.spec, m, online, p, c) && (ignorePunish ==> Spare(c))
    {
      ListsMeans(online, allowed);
      for i := 0 to |allowed|
        invariant forall j :: 0 <= j < i ==>
                    !(MayTake(reg.spec, m, online, p, allowed[j]) && (ignorePunish ==> Spare(allowed[j])))
      {
        assert allowed[i] in online;
        if CanPreempt(reg.spec, m.active, m.cores, p, allowed[i]) && (ignorePunish ==> Spare(allowed[i])) {
          assert MayTake(reg.spec, m, online, p, allowed[i]);
          return true;
        }
      }
      return false;
    }

    /** The search of ias_ht_relinquish_core: the held core whose sibling has used the least budget. */
    method HeldCore(p: Pid) returns (core: nat)
      requires Shape() && p in reg.spec && !noht
      ensures core == ncpu || (core in online && reg.spec[p].htPunish && HeldBack(m, punished, online, p, core))
      ensures core == ncpu && reg.spec[p].htPunish ==> forall c :: !HeldBack(m, punished, online, p, c)
      ensures core < ncpu ==>
                forall c: nat :: HeldBack(m, punished, online, p, c) ==> budget[sibling[core]] <= budget[sibling[c]]
    {
      core := ncpu;
      if !reg.spec[p].htPunish {
        return;
      }
      ListsMeans(online, allowed);
      for i := 0 to |allowed|
        invariant core == ncpu || (core in online && HeldBack(m, punished, online, p, core))
        invariant forall j :: 0 <= j < i && HeldBack(m, punished, online, p, allowed[j]) ==>
                    core < ncpu && budget[sibling[core]] <= budget[sibling[allowed[j]]]
      {
        assert allowed[i] in online;
        if m.cores[allowed[i]] == Some(p) && allowed[i] in punished {
          if core == ncpu || budget[sibling[allowed[i]]] < budget[sibling[core]] {
            core := allowed[i];
          }
        }
      }
    }

    /** ias_ht_relinquish_core: release a held core, if p has one. */
    method RelinquishCore(p: Pid) returns (core: nat)
      requires Working() && p in reg.spec && !noht
      modifies this`m, this`punished, this`relaxCount
      ensures Working() && Tracked(old(m), m)
      ensures core == ncpu || (core in online && old(reg.spec[p].htPunish && HeldBack(m, punished, online, p, core)))
      ensures core == ncpu ==> m == old(m) && punished == old(punished)
      ensures core == ncpu && reg.spec[p].htPunish ==> forall c :: !old(HeldBack(m, punished, online, p, c))
      ensures core < ncpu ==> punished == old(punished) - {core} && (m == old(m) || m == IdleOn(old(m), core, now))
    {
      core := HeldCore(p);
      if core < ncpu {
        LetFree(core);
      }
    }

    /** How p came by the core: by the preemption rule from below its limit, or it held the core back itself. */
    ghost predicate Obtains(p: Pid, core: nat)
      requires p in reg.spec && m.active.Keys == limit.Keys == reg.spec.Keys
      reads this
    {
      || (m.active[p] < limit[p] && MayTake(reg.spec, m, online, p, core))
      || (!noht && reg.spec[p].htPunish && HeldBack(m, punished, online, p, core))
    }

    /** The core that ias_add_kthread settles on, or ncpu. */
    method CoreFor(p: Pid) returns (core: nat)
      requires Working() && p in reg.spec
      modifies this`m, this`punished, this`relaxCount
      ensures Working() && Tracked(old(m), m)
      ensures core == ncpu || (core < ncpu && old(Obtains(p, core)))
      ensures core == ncpu ==> m == old(m) && punished == old(punished) && forall c :: !old(Obtains(p, c))
      ensures core < ncpu ==>
                m == old(m) || (old(HeldBack(m, punished, online, p, core)) && m == IdleOn(old(m), core, now))
      ensures old(Valid() && BelowGuarantee(p) && m.active[p] < limit[p]) ==> core < ncpu
      ensures punished <= old(punished)
    {
      core := ncpu;
      if m.active[p] < limit[p] {
        core := ChooseCore(p);
        if Valid() && BelowGuarantee(p) {
          GuaranteedTakes(p);
        }
      }
      if core == ncpu && !noht {
        core := RelinquishCore(p);
      }
    }

    /**
     ias_add_kthread: below its guarantee and its limit, a latency-critical process never goes
     without a core; nobody gets a core they may not take.
     */
    method AddKthread(p: Pid) returns (r: AddResult)
      requires Working() && p in reg.spec
      modifies this`m, this`punished, this`relaxCount
      ensures Working() && Tracked(old(m), m)
      ensures r.NoCore? ==> m == old(m) && punished == old(punished) && forall c :: !old(Obtains(p, c))
      ensures r.Added? ==> r.core < ncpu && old(Obtains(p, r.core)) && m.cores == old(m.cores)[r.core := Some(p)]
      ensures old(Valid() && BelowGuarantee(p) && m.active[p] < limit[p]) ==> !r.NoCore?
      ensures punished <= old(punished)
    {
      var core := CoreFor(p);
      if core == ncpu {
        return NoCore;
      }
      ghost var between := m;
      assert between.cores[core := Some(p)] == old(m.cores)[core := Some(p)];
      r := RunKthreadOnCore(p, core);
      TrackedTrans(old(m), between, m);
    }

    // ------------------------------------------------------------ choosing a process

    /** ias_choose_kthread: the process starved longest, else the best congested one below its limit. */
    method ChooseKthread(core: nat) returns (best: Option<Pid>)
      requires m.active.Keys == limit.Keys == reg.spec.Keys && MarksOk(reg.spec, m.active, m.starved, m.congested)
      requires forall p :: p in reg.spec ==> m.active[p] <= ncpu
      ensures best.Some? ==> best.value in reg.spec
      ensures m.starved.list != [] ==> best == Some(m.starved.list[0]) && m.active[best.value] == 0
      ensures m.starved.list == [] && best == None ==> forall p :: p in reg.spec ==> !Eligible(m, limit, p)
      ensures m.starved.list == [] && best.Some? ==>
                && Eligible(m, limit, best.value)
                && forall p :: p in reg.spec && Eligible(m, limit, p) ==>
                     KthreadScore(reg.spec, m.active, ncpu, p, core)
                     <= KthreadScore(reg.spec, m.active, ncpu, best.value, core)
    {
      if m.starved.list != [] {
        var p := m.starved.list[0];
        assert m.active[p] == 0;
        return Some(p);
      }
      best := None;
      var bestScore := -1;
      ListsMeans(m.congested.flags, m.congested.list);
      for i := 0 to |m.congested.list|
        invariant best == None ==> bestScore == -1
        invariant best.Some? ==>
                    && best.value in reg.spec && Eligible(m, limit, best.value)
                    && bestScore == KthreadScore(reg.spec, m.active, ncpu, best.value, core)
        invariant forall j :: 0 <= j < i && m.congested.list[j] in reg.spec
                              && Eligible(m, limit, m.congested.list[j]) ==>
                    KthreadScore(reg.spec, m.active, ncpu, m.congested.list[j], core) <= bestScore
      {
        var p := m.congested.list[i];
        assert p in m.congested.flags;
        if m.active[p] < limit[p] {
          var score := KthreadScore(reg.spec, m.active, ncpu, p, core);
          if score > bestScore {
            best, bestScore := Some(p), score;
          }
        }
      }
    }

    /** ias_add_kthread_on_core. */
    method AddKthreadOnCore(core: nat) returns (r: AddResult)
      requires Working() && core < ncpu
      modifies this`m
      ensures Working() && Tracked(old(m), m)
      ensures r == Added(core) || (!r.Added? && m == old(m))
      ensures r.Added? ==>
                && core in online
                && exists p :: p in reg.spec && Deserves(old(m), limit, p) && m == RunOn(old(m), p, core, now)
      ensures r.NoCore? ==> m.starved.list == [] && forall p :: p in reg.spec ==> !Eligible(m, limit, p)
    {
      assert forall p :: p in reg.spec ==> m.active[p] == CountOn(m.cores, p) <= ncpu;
      var best := ChooseKthread(core);
      if best == None {
        return NoCore;
      }
      r := RunKthreadOnCore(best.value, core);
    }

    // ------------------------------------------------------------ the policy's entry points

    /** The common end of the two notifications: while nobody starves p gets a core, otherwise it is marked. */
    method AddOrMark(p: Pid) returns (added: bool)
      requires Working() && p in reg.spec
      modifies this`m, this`punished, this`relaxCount
      ensures Working() && Tracked(old(m), m)
      ensures added ==> old(m.starved.list) == [] && m.active[p] > 0 && p !in m.starved.flags
      ensures !added ==> p in m.congested.flags && (reg.spec[p].isLc && m.active[p] == 0 ==> p in m.starved.flags)
    {
      if m.starved.list == [] {
        var r := AddKthread(p);
        if r.Added? {
          OccupantNotStarved(reg.spec, m, online, p, r.core);
          return true;
        }
      }
      ghost var between := m;
      MarkedOk(reg.spec, m, online, p);
      m := Marked(reg.spec, m, p);
      TrackedTrans(old(m), between, m);
      return false;
    }

    /** ias_notify_core_needed: p gets a core or is marked, and marked starved if it has none. */
    method NotifyCoreNeeded(p: Pid)
      requires Working() && p in reg.spec
      modifies this`m, this`punished, this`relaxCount
      ensures Working() && Tracked(old(m), m)
      ensures p in m.congested.flags || m.active[p] > 0
      ensures reg.spec[p].isLc && m.active[p] == 0 ==> p in m.starved.flags
    {
      var _ := AddOrMark(p);
    }

    /** ias_notify_congested: answers whether p starves; an uncongested process loses its marks. */
    method NotifyCongested(p: Pid, qdelayUs: nat, standingQueue: bool, maxDelayUs: nat, parkedBusy: bool)
      returns (starving: bool)
      requires Working() && p in reg.spec
      modifies this`m, this`punished, this`relaxCount
      ensures Working() && Tracked(old(m), m)
      ensures starving <==> p in m.starved.flags
      ensures !parkedBusy && (if qdelayUs == 0 then !standingQueue else maxDelayUs < qdelayUs) ==>
                m == Unmarked(old(m), p)
      ensures parkedBusy || (if qdelayUs == 0 then standingQueue else maxDelayUs >= qdelayUs) ==>
                && (p in m.congested.flags || m.active[p] > 0)
                && (p in old(m.congested.flags) ==> m == old(m))
    {
      var congestion := if qdelayUs == 0 then standingQueue else maxDelayUs >= qdelayUs;
      congestion := congestion || parkedBusy;
      if !congestion {
        UnmarkedOk(reg.spec, m, online, p);
        m := Unmarked(m, p);
        return false;
      }
      if p !in m.congested.flags {
        var _ := AddOrMark(p);
      }
      return p in m.starved.flags;
    }

    /** The core is busy or nobody's, and no other core changed hands or went idle. */
    ghost predicate GivesUp(m: Machine, m': Machine, core: nat) {
      && |m'.cores| == |m.cores| && m'.idle <= m.idle
      && (core in m'.idle && core < |m.cores| ==> m'.cores[core] == None)
      && forall c :: 0 <= c < |m.cores| && c != core ==> m'.cores[c] == m.cores[c]
    }

    /** Of the first n cores, those that are idle and not punished are nobody's. */
    ghost predicate GivenUp(m: Machine, punished: set<nat>, n: nat) {
      forall c :: 0 <= c < n && c < |m.cores| && c in m.idle && c !in punished ==> m.cores[c] == None
    }

    lemma GivenUpNext(m: Machine, m': Machine, punished: set<nat>, core: nat)
      requires GivenUp(m, punished, core)
      requires GivesUp(m, m', core) || (m' == m && (core !in m.idle || core in punished))
      ensures GivenUp(m', punished, core + 1)
    {
    }

    /** One idle core of ias_sched_poll: its process, if any, gives it up, and someone else may run there. */
    method OfferIdleCore(core: nat)
      requires Working() && core in online
      modifies this`m
      ensures Working() && Tracked(old(m), m)
      ensures GivesUp(old(m), m, core)
    {
      if m.cores[core].Some? {
        UnmarkedOk(reg.spec, m, online, m.cores[core].value);
        m := Unmarked(m, m.cores[core].value);
      }
      CleanedUpOk(reg.spec, m, online, core, now);
      m := CleanedUp(m, core, now);
      ghost var between := m;
      var r := AddKthreadOnCore(core);
      TrackedTrans(old(m), between, m);
    }

    method OfferTracked(core: nat, ghost first: Machine)
      requires Working() && core in online && Tracked(first, m)
      modifies this`m
      ensures Working() && Tracked(first, m)
      ensures GivesUp(old(m), m, core)
    {
      ghost var before := m;
      OfferIdleCore(core);
      TrackedTrans(first, before, m);
    }

    /** The allocation pass of ias_sched_poll: afterwards no idle core is charged to anyone, unless it is punished. */
    method AllocateIdle(newlyIdle: set<nat>)
      requires Working() && newlyIdle <= online
      modifies this`m
      ensures Working() && Tracked(old(m), m)
      ensures GivenUp(m, punished, ncpu)
    {
      m := m.(idle := m.idle + newlyIdle);
      for core := 0 to ncpu
        invariant Working() && Tracked(old(m), m)
        invariant GivenUp(m, punished, core)
      {
        ghost var before := m;
        if core in m.idle && core !in punished {
          OfferTracked(core, old(m));
        }
        GivenUpNext(before, m, punished, core);
      }
    }

    // ------------------------------------------------------- the hyperthread controller

    /** The core is running a latency-critical process. */
    ghost predicate Critical(core: nat)
      reads this
    {
      core < |m.cores| && m.cores[core].Some? && m.cores[core].value in reg.spec && reg.spec[m.cores[core].value].isLc
    }

    /**
     The sibling of p's reserved core may be held back: neither of the two is punished yet, and a critical
     process on it, p itself included, would leave p a core to take.
     */
    ghost predicate Punishable(p: Pid, core: nat)
      requires Shape() && p in reg.spec && !noht && core < ncpu
      reads this
    {
      var sib := sibling[core];
      && core in reg.spec[p].reserved && core !in punished && sib !in punished
      && (m.cores[sib] == Some(p) ==> budget[sib] < 1.0 && exists c :: MayTake(reg.spec, m, online, p, c) && Spare(c))
      && (Critical(sib) ==> exists c :: MayTake(reg.spec, m, online, p, c))
    }

    /** The tests of ias_ht_punish that leave a core alone. */
    method MayPunish(p: Pid, core: nat) returns (r: bool)
      requires Shape() && m.active.Keys == reg.spec.Keys && p in reg.spec && !noht && core < ncpu
      requires forall q :: m.cores[sibling[core]] == Some(q) ==> q in reg.spec
      ensures r <==> Punishable(p, core)
    {
      var sib := sibling[core];
      if core !in reg.spec[p].reserved || core in punished || sib in punished {
        return false;
      }
      if m.cores[sib] == Some(p) {
        if budget[sib] >= 1.0 {
          return false;
        }
        r := CanAddKthread(p, true);
      } else if m.cores[sib].Some? && reg.spec[m.cores[sib].value].isLc {
        r := CanAddKthread(p, false);
      } else {
        r := true;
      }
    }

    /** Count and mark a core as punished. */
    method MarkPunished(core: nat)
      requires Counted() && core !in punished
      modifies this`punished, this`punishCount
      ensures Counted() && punished == old(punished) + {core} && punishCount == old(punishCount) + 1
    {
      punishCount := punishCount + 1;
      punished := punished + {core};
    }

    /** Idle a core that is not punished yet, keep it charged to p and mark it punished. */
    method HoldBack(p: Pid, core: nat) returns (ok: bool)
      requires Working() && p in reg.spec && p !in m.starved.flags && core < ncpu && core !in punished
      modifies this`m, this`punished, this`punishCount
      ensures Working() && Tracked(old(m), m)
      ensures core in old(m.idle) ==> ok
      ensures ok ==> m == HoldFor(old(m), p, core, now) && punished == old(punished) + {core}
      ensures punishCount == old(punishCount) + if ok then 1 else 0
      ensures !ok ==> m == old(m) && punished == old(punished)
    {
      ok := IdlePlaceholderOnCore(p, core);
      if ok {
        MarkPunished(core);
      }
    }

    /** ias_ht_punish without its last step: idle the sibling of p's core but keep it charged to p. */
    method HoldSibling(p: Pid, core: nat) returns (ok: bool)
      requires Working() && p in reg.spec && !noht && core < ncpu && m.cores[core] == Some(p)
      modifies this`m, this`punished, this`punishCount
      ensures Working() && Tracked(old(m), m)
      ensures ok ==> old(Punishable(p, core)) && m == HoldFor(old(m), p, sibling[core], now)
      ensures ok ==> punished == old(punished) + {sibling[core]}
      ensures punishCount == old(punishCount) + if ok then 1 else 0
      ensures !ok ==> m == old(m) && punished == old(punished)
      ensures old(Punishable(p, core)) && sibling[core] in old(m.idle) ==> ok
    {
      ok := MayPunish(p, core);
      if ok {
        OccupantNotStarved(reg.spec, m, online, p, core);
        ok := HoldBack(p, sibling[core]);
      }
    }

    /** ias_ht_punish: hold the sibling of p's core back; a critical process displaced by that moves on. */
    method HtPunish(p: Pid, core: nat)
      requires Working() && p in reg.spec && !noht && core < ncpu && m.cores[core] == Some(p)
      modifies this`m, this`punished, this`punishCount, this`relaxCount
      ensures Working() && Tracked(old(m), m)
      ensures punishCount == old(punishCount) ==> m == old(m) && punished == old(punished)
      ensures punishCount != old(punishCount) ==>
                old(Punishable(p, core)) && punished <= old(punished) + {sibling[core]}
      ensures punishCount != old(punishCount) && !old(Critical(sibling[core])) ==>
                m == HoldFor(old(m), p, sibling[core], now) && punished == old(punished) + {sibling[core]}
      ensures old(Punishable(p, core)) && sibling[core] in old(m.idle) ==> punishCount == old(punishCount) + 1
    {
      var displaced := m.cores[sibling[core]];
      var ok := HoldSibling(p, core);
      if ok && displaced.Some? && reg.spec[displaced.value].isLc {
        ghost var between := m;
        var _ := AddKthread(displaced.value);
        TrackedTrans(old(m), between, m);
      }
    }

    /** Count and mark a core as punished no more. */
    method MarkRelaxed(core: nat)
      requires Counted() && core in punished
      modifies this`punished, this`relaxCount
      ensures Counted() && punished == old(punished) - {core}
    {
      relaxCount := relaxCount + 1;
      punished := punished - {core};
    }

    /** A punished core is punished no more and, if the low-level scheduler agrees, free. */
    method LetFree(core: nat)
      requires Working() && core < ncpu && core in punished
      modifies this`m, this`punished, this`relaxCount
      ensures Working() && Tracked(old(m), m) && punished == old(punished) - {core}
      ensures m == old(m) || m == IdleOn(old(m), core, now)
      ensures core in old(m.idle) ==> m == IdleOn(old(m), core, now)
    {
      MarkRelaxed(core);
      var _ := IdleOnCore(core);
    }

    /** ias_ht_relax: the sibling is punished no more and, if the low-level scheduler agrees, free. */
    method HtRelax(core: nat)
      requires Working() && !noht && core < ncpu
      modifies this`m, this`punished, this`relaxCount
      ensures Working() && Tracked(old(m), m)
      ensures punished == old(punished) - {sibling[core]}
      ensures sibling[core] !in old(punished) ==> m == old(m)
      ensures sibling[core] in old(punished) ==> m == old(m) || m == IdleOn(old(m), sibling[core], now)
      ensures sibling[core] in old(punished) && sibling[core] in old(m.idle) ==> m.cores[sibling[core]] == None
    {
      var sib := sibling[core];
      if sib in punished {
        LetFree(sib);
      }
    }

    /** The first loop of ias_ht_poll: record the budget each core has used. */
    method UpdateBudgets(used: seq<real>) returns (count: nat)
      requires Static() && |budget| == |used| == ncpu
      modifies this`budget
      ensures |budget| == ncpu
      ensures forall c :: c in online ==> budget[c] == used[c]
      ensures count == 0 ==> forall c :: c in online ==> used[c] == 0.0
    {
      count := 0;
      ListsMeans(online, allowed);
      for i := 0 to |allowed|
        invariant |budget| == ncpu
        invariant forall j :: 0 <= j < i ==> allowed[j] in online && budget[allowed[j]] == used[allowed[j]]
        invariant count == 0 ==> forall j :: 0 <= j < i ==> allowed[j] in online && used[allowed[j]] == 0.0
      {
        assert allowed[i] in online;
        budget := budget[allowed[i] := used[allowed[i]]];
        if used[allowed[i]] != 0.0 {
          count := count + 1;
        }
      }
    }

    /** One core of the last loop of ias_ht_poll. */
    method AdjustCore(core: nat, used: real)
      requires Working() && !noht && core < ncpu
      modifies this`m, this`punished, this`punishCount, this`relaxCount
      ensures Working() && Tracked(old(m), m)
      ensures used < 1.0 || old(m.cores[core].None? || !reg.spec[m.cores[core].value].htPunish) ==>
                punished == old(punished) - {sibling[core]} && punishCount == old(punishCount)
    {
      if m.cores[core].Some? && reg.spec[m.cores[core].value].htPunish && used >= 1.0 {
        HtPunish(m.cores[core].value, core);
      } else {
        HtRelax(core);
      }
    }

    /** The siblings of our cores. */
    ghost function Lanes(): set<nat> {
      set c | c in online && c < |sibling| :: sibling[c]
    }

    /** Only lanes of our cores have been released, and those of the first i listed cores have. */
    ghost predicate Releasing(was: set<nat>, held: set<nat>, order: seq<nat>, i: nat) {
      && i <= |order| && was - Lanes() <= held <= was
      && forall j :: 0 <= j < i && order[j] < |sibling| ==> sibling[order[j]] !in held
    }

    lemma ReleaseStep(was: set<nat>, held: set<nat>, order: seq<nat>, i: nat)
      requires Releasing(was, held, order, i) && i < |order| && order[i] in online && order[i] < |sibling|
      ensures Releasing(was, held - {sibling[order[i]]}, order, i + 1)
    {
    }

    lemma AllReleased(was: set<nat>, held: set<nat>, order: seq<nat>)
      requires Releasing(was, held, order, |order|) && Lists(online, order)
      ensures held == was - Lanes()
    {
      ListsMeans(online, order);
      forall d | d in online && d < |sibling|
        ensures sibling[d] !in held
      {
        var j :| 0 <= j < |order| && order[j] == d;
      }
    }

    /** No core of ours has used up its budget. */
    ghost predicate WithinBudget(used: seq<real>) {
      forall c :: c in online && c < |used| ==> used[c] < 1.0
    }

    /** The last loop of ias_ht_poll. When nobody has used up a budget, every punishment ends. */
    method AdjustCores(used: seq<real>, order: seq<nat>)
      requires Working() && !noht && |used| == ncpu && Lists(online, order)
      modifies this`m, this`punished, this`punishCount, this`relaxCount
      ensures Working() && Tracked(old(m), m)
      ensures WithinBudget(used) ==> punished == old(punished) - Lanes()
    {
      for i := 0 to |order|
        invariant Working() && Tracked(old(m), m)
        invariant WithinBudget(used) ==> Releasing(old(punished), punished, order, i)
      {
        ListsAt(online, order, i);
        ghost var before, held := m, punished;
        AdjustCore(order[i], used[order[i]]);
        TrackedTrans(old(m), before, m);
        if WithinBudget(used) {
          ReleaseStep(old(punished), held, order, i);
        }
      }
      if WithinBudget(used) {
        AllReleased(old(punished), punished, order);
      }
    }

    /**
     ias_ht_poll, given the budget each core has used and our cores in the order qsort leaves them.
     When nobody has used up a budget, every punishment ends; the early exit finds none to end.
     */
    method HtPoll(used: seq<real>, order: seq<nat>)
      requires Working() && !noht && |used| == ncpu && Lists(online, order)
      modifies this`m, this`budget, this`punished, this`punishCount, this`relaxCount
      ensures Working() && Tracked(old(m), m)
      ensures WithinBudget(used) ==> punished == old(punished) - Lanes()
    {
      var count := UpdateBudgets(used);
      if count == 0 && punishCount == relaxCount {
        assert punished == {};
        return;
      }
      AdjustCores(used, order);
    }

    // --------------------------------------------------------- the bandwidth controller

    ghost predicate Sampled()
      reads this`bwState, this`start, this`end, this`reg, this`m
    {
      SampledOk(bwState, start, end, reg.spec, m, online)
    }

    /** ias_bw_request_pmc: exactly the unpunished cores of best-effort processes get a current sample. */
    method RequestSamples() returns (samples: seq<int>)
      requires Running()
      ensures |samples| == ncpu && SamplesOk(samples, reg.spec, m, online)
      ensures forall c :: c in online ==>
                (samples[c] == m.gen[c] <==> IsBestEffort(reg.spec, m.cores[c]) && c !in punished)
    {
      samples := seq(ncpu, _ => 0);
      ListsMeans(online, allowed);
      for i := 0 to |allowed|
        invariant |samples| == ncpu
        invariant forall j :: 0 <= j < i ==> allowed[j] in online && SampleOk(samples, reg.spec, m, allowed[j])
        invariant forall j :: 0 <= j < i ==>
                    && allowed[j] in online
                    && (samples[allowed[j]] == m.gen[allowed[j]] <==>
                        IsBestEffort(reg.spec, m.cores[allowed[j]]) && allowed[j] !in punished)
      {
        var c := allowed[i];
        assert c in online;
        var g: int := m.gen[c];
        if m.cores[c].None? || reg.spec[m.cores[c].value].isLc || c in punished {
          samples := samples[c := g - 1];
        } else {
          samples := samples[c := g];
        }
      }
    }

    /** ias_bw_gather_pmc: a sample that did not arrive is made stale. */
    method GatherSamples(was: seq<int>, arrived: set<nat>) returns (samples: seq<int>)
      requires Running() && |was| == ncpu && SamplesOk(was, reg.spec, m, online)
      ensures |samples| == ncpu && SamplesOk(samples, reg.spec, m, online)
      ensures forall c :: c in online ==> (samples[c] == m.gen[c] <==> was[c] == m.gen[c] && c in arrived)
    {
      samples := was;
      ListsMeans(online, allowed);
      for i := 0 to |allowed|
        invariant |samples| == ncpu && SamplesOk(samples, reg.spec, m, online)
        invariant forall c :: c in online ==> samples[c] == was[c] || (samples[c] < m.gen[c] && c !in arrived)
        invariant forall j :: 0 <= j < i ==>
                    && allowed[j] in online
                    && (samples[allowed[j]] == m.gen[allowed[j]] ==> allowed[j] in arrived)
      {
        var c := allowed[i];
        assert c in online;
        var g: int := m.gen[c];
        if samples[c] == g && c !in arrived {
          samples := samples[c := g - 1];
        }
      }
    }

    /** The misses per cycle blamed on p: those of its cores whose two samples are current. */
    ghost function Blame(est: seq<real>, p: Pid, n: nat): real
      requires n <= |allowed| && |est| == ncpu && Shape()
      reads this
    {
      if n == 0 then 0.0
      else
        var c := allowed[n - 1];
        Blame(est, p, n - 1)
        + if c < ncpu && m.cores[c] == Some(p) && start[c] == end[c] == m.gen[c] then est[c] else 0.0
    }

    /** p may be throttled for its misses. */
    ghost predicate Blamed(est: seq<real>, share: real, p: Pid)
      requires |est| == ncpu && Shape() && limit.Keys == reg.spec.Keys && p in reg.spec
      reads this
    {
      limit[p] > reg.spec[p].guaranteed && Blame(est, p, |allowed|) >= share
    }

    /** The misses of a core with two current samples are added to those of its process. */
    function Charged(rate: map<Pid, real>, est: seq<real>, c: nat): map<Pid, real>
      requires Shape() && |est| == ncpu && c < ncpu
      reads this
    {
      if m.cores[c].Some? && m.cores[c].value in rate && start[c] == end[c] && start[c] == m.gen[c]
      then rate[m.cores[c].value := rate[m.cores[c].value] + est[c]]
      else rate
    }

    /** The rates after the first n cores. */
    ghost predicate Rated(rate: map<Pid, real>, est: seq<real>, n: nat)
      requires n <= |allowed| && |est| == ncpu && Shape()
      reads this
    {
      rate.Keys == reg.spec.Keys && forall p :: p in reg.spec ==> rate[p] == Blame(est, p, n)
    }

    lemma RatedNext(rate: map<Pid, real>, est: seq<real>, n: nat)
      requires n < |allowed| && |est| == ncpu && Running() && Rated(rate, est, n)
      ensures allowed[n] < ncpu && Rated(Charged(rate, est, allowed[n]), est, n + 1)
    {
      ListsAt(online, allowed, n);
    }

    /** Misses are blamed only on a process one of whose cores misses. */
    lemma {:induction false} BlameNeedsMiss(est: seq<real>, p: Pid, n: nat)
      requires n <= |allowed| && |est| == ncpu && Shape()
      requires forall c :: c in online && m.cores[c] == Some(p) ==> est[c] <= 0.0
      ensures Blame(est, p, n) <= 0.0
      decreases n
    {
      if n > 0 {
        ListsAt(online, allowed, n - 1);
        BlameNeedsMiss(est, p, n - 1);
      }
    }

    lemma {:induction false} CriticalNotBlamed(est: seq<real>, p: Pid, n: nat)
      requires n <= |allowed| && |est| == ncpu && Running() && SamplesOk(end, reg.spec, m, online)
      requires p in reg.spec && reg.spec[p].isLc
      ensures Blame(est, p, n) == 0.0
      decreases n
    {
      if n > 0 {
        ListsAt(online, allowed, n - 1);
        assert SampleOk(end, reg.spec, m, allowed[n - 1]);
        CriticalNotBlamed(est, p, n - 1);
      }
    }

    lemma NoCriticalBlamed(est: seq<real>)
      requires |est| == ncpu && Running() && SamplesOk(end, reg.spec, m, online)
      ensures forall p :: p in reg.spec && reg.spec[p].isLc ==> Blame(est, p, |allowed|) == 0.0
    {
      forall p | p in reg.spec && reg.spec[p].isLc
        ensures Blame(est, p, |allowed|) == 0.0
      {
        CriticalNotBlamed(est, p, |allowed|);
      }
    }

    /** The first loops of ias_bw_choose_victim: no latency-critical process is ever blamed for a miss. */
    method MissRates(est: seq<real>) returns (rate: map<Pid, real>)
      requires Running() && |est| == ncpu && SamplesOk(end, reg.spec, m, online)
      ensures rate.Keys == reg.spec.Keys
      ensures forall p :: p in reg.spec && reg.spec[p].isLc ==> rate[p] == 0.0
      ensures forall p :: p in reg.spec ==> rate[p] == Blame(est, p, |allowed|)
    {
      rate := map p | p in reg.spec :: 0.0;
      ListsMeans(online, allowed);
      for i := 0 to |allowed|
        invariant Rated(rate, est, i)
      {
        RatedNext(rate, est, i);
        rate := Charged(rate, est, allowed[i]);
      }
      NoCriticalBlamed(est);
    }

    /**
     The process that misses most in ias_bw_choose_victim, if any may be throttled. The argument share is
     the bandwidth threshold divided by the number of our cores.
     */
    method WorstTask(rate: map<Pid, real>, share: real) returns (victim: Option<Pid>)
      requires limit.Keys == reg.spec.Keys == rate.Keys && Lists(reg.spec.Keys, reg.all)
      ensures victim.Some? ==>
                && victim.value in reg.spec && rate[victim.value] > 0.0 && rate[victim.value] >= share
                && limit[victim.value] > reg.spec[victim.value].guaranteed
                && forall p :: p in reg.spec && limit[p] > reg.spec[p].guaranteed && rate[p] >= share
                               ==> rate[p] <= rate[victim.value]
      ensures victim.None? ==> forall p :: p in reg.spec && limit[p] > reg.spec[p].guaranteed && rate[p] >= share
                                           ==> rate[p] <= 0.0
    {
      victim := None;
      var highest := 0.0;
      ListsMeans(reg.spec.Keys, reg.all);
      for i := 0 to |reg.all|
        invariant victim.None? ==> highest == 0.0
        invariant victim.Some? ==>
                    && victim.value in reg.spec && rate[victim.value] == highest > 0.0 && highest >= share
                    && limit[victim.value] > reg.spec[victim.value].guaranteed
        invariant forall j :: 0 <= j < i ==>
                    && reg.all[j] in reg.spec
                    && (limit[reg.all[j]] > reg.spec[reg.all[j]].guaranteed && rate[reg.all[j]] >= share
                        ==> rate[reg.all[j]] <= highest)
      {
        var p := reg.all[i];
        assert p in reg.spec;
        if limit[p] == 0 || limit[p] <= reg.spec[p].guaranteed || rate[p] < share || rate[p] <= highest {
          continue;
        }
        victim, highest := Some(p), rate[p];
      }
    }

    /** The last loop of ias_bw_choose_victim: the victim's core with the most misses, or ncpu. */
    method WorstCore(victim: Pid, est: seq<real>) returns (core: nat)
      requires Running() && |est| == ncpu
      ensures core == ncpu || (core in online && m.cores[core] == Some(victim) && est[core] > 0.0)
      ensures core < ncpu ==> forall c :: c in online && m.cores[c] == Some(victim) ==> est[c] <= est[core]
      ensures core == ncpu ==> forall c :: c in online && m.cores[c] == Some(victim) ==> est[c] <= 0.0
    {
      core := ncpu;
      var highest := 0.0;
      ListsMeans(online, allowed);
      for i := 0 to |allowed|
        invariant core == ncpu ==> highest == 0.0
        invariant core == ncpu || (core in online && m.cores[core] == Some(victim) && est[core] == highest > 0.0)
        invariant forall j :: 0 <= j < i ==>
                    && allowed[j] in online
                    && (m.cores[allowed[j]] == Some(victim) ==> est[allowed[j]] <= highest)
      {
        var c := allowed[i];
        assert c in online;
        if est[c] <= highest || m.cores[c] != Some(victim) {
          continue;
        }
        core, highest := c, est[c];
      }
    }

    /**
     ias_bw_choose_victim: the victim and its worst core; never a latency-critical process, and none
     exactly when nobody who may be throttled misses.
     */
    method ChooseVictim(est: seq<real>, share: real) returns (victim: Option<(Pid, nat)>)
      requires Running() && limit.Keys == reg.spec.Keys && Lists(reg.spec.Keys, reg.all)
      requires |est| == ncpu && SamplesOk(end, reg.spec, m, online)
      ensures victim.None? <==> forall p :: p in reg.spec && Blamed(est, share, p) ==> Blame(est, p, |allowed|) <= 0.0
      ensures victim.Some? ==>
                var (p, core) := victim.value;
                && p in reg.spec && !reg.spec[p].isLc && Blamed(est, share, p)
                && (forall q :: q in reg.spec && Blamed(est, share, q) ==>
                      Blame(est, q, |allowed|) <= Blame(est, p, |allowed|))
                && core in online && m.cores[core] == Some(p)
                && forall c :: c in online && m.cores[c] == Some(p) ==> est[c] <= est[core]
    {
      var rate := MissRates(est);
      var p := WorstTask(rate, share);
      if p.None? {
        return None;
      }
      var core := WorstCore(p.value, est);
      if core == ncpu {
        BlameNeedsMiss(est, p.value, |allowed|);
      }
      return if core == ncpu then None else Some((p.value, core));
    }

    /** is_bwlimited and ias_bw_throttle_core: fewer cores for p from now on, and this one at once if possible. */
    method Throttle(p: Pid, core: nat)
      requires Working() && LimitsOk(reg.spec, limit, bwLimited)
      requires p in reg.spec && !reg.spec[p].isLc && limit[p] > 0 && core in online && m.cores[core] == Some(p)
      modifies this`m, this`limit, this`bwLimited
      ensures Working() && LimitsOk(reg.spec, limit, bwLimited) && Tracked(old(m), m)
      ensures bwLimited == old(bwLimited) + {p}
      ensures limit == old(limit)[p := Throttled(old(limit[p]), old(m.active[p]))]
      ensures m.cores[core] == Some(p) ==> m == old(m)
    {
      OccupantNotStarved(reg.spec, m, online, p, core);
      LimitsThrottled(reg.spec, limit, bwLimited, p, m.active[p]);
      bwLimited := bwLimited + {p};
      limit := limit[p := Throttled(limit[p], m.active[p])];
      var r := AddKthreadOnCore(core);
      if !r.Added? {
        var _ := IdleOnCore(core);
      }
    }

    /**
     ias_bw_punish: a best-effort process is limited to fewer cores than it has, and its worst core is
     taken away. The stale generation written to start is that of the last core visited.
     */
    method BwPunish(est: seq<real>, share: real) returns (victim: Option<Pid>)
      requires Valid() && |est| == ncpu && SamplesOk(end, reg.spec, m, online)
      modifies this`m, this`limit, this`bwLimited, this`start
      ensures Valid() && Tracked(old(m), m)
      ensures victim.None? ==> m == old(m) && limit == old(limit) && bwLimited == old(bwLimited)
      ensures victim.Some? ==>
                && victim.value in reg.spec && !reg.spec[victim.value].isLc
                && bwLimited == old(bwLimited) + {victim.value}
                && limit == old(limit)[victim.value := Throttled(old(limit[victim.value]), old(m.active[victim.value]))]
                && reg.spec[victim.value].guaranteed < old(limit[victim.value])
                && (limit[victim.value] >= reg.spec[victim.value].guaranteed <==>
                    old(m.active[victim.value]) > reg.spec[victim.value].guaranteed)
    {
      var choice := ChooseVictim(est, share);
      if choice.None? {
        return None;
      }
      var (p, core) := choice.value;
      OccupantActive(reg.spec, m, online, p, core);
      ThrottleAndGuarantee(limit[p], m.active[p], reg.spec[p].guaranteed);
      var last := if allowed == [] then core else allowed[|allowed| - 1];
      if last < ncpu {
        var g: int := m.gen[last];
        start := start[core := g - 1];
      }
      Throttle(p, core);
      return Some(p);
    }

    /** The process ias_bw_relax picks. */
    method RelaxChoice() returns (best: Option<Pid>)
      requires limit.Keys == reg.spec.Keys && Lists(reg.spec.Keys, reg.all) && bwLimited <= reg.spec.Keys
      ensures best.Some? ==> best.value in bwLimited && best.value in m.congested.flags
      ensures best.Some? ==> forall p :: p in bwLimited && p in m.congested.flags ==> limit[p] <= limit[best.value]
      ensures best.None? ==> forall p :: p in bwLimited ==> p !in m.congested.flags
    {
      best := None;
      ListsMeans(reg.spec.Keys, reg.all);
      for i := 0 to |reg.all|
        invariant best.Some? ==> best.value in bwLimited && best.value in m.congested.flags
        invariant forall j :: 0 <= j < i && reg.all[j] in bwLimited && reg.all[j] in m.congested.flags ==>
                    best.Some? && limit[reg.all[j]] <= limit[best.value]
      {
        var p := reg.all[i];
        assert p in reg.spec;
        if p !in bwLimited || p !in m.congested.flags || (best.Some? && limit[p] <= limit[best.value]) {
          continue;
        }
        best := Some(p);
      }
    }

    /** ias_bw_relax: the congested limited process with the highest limit may have one core more. */
    method BwRelax() returns (best: Option<Pid>)
      requires Settled()
      modifies this`limit, this`bwLimited
      ensures Settled()
      ensures best.None? ==> limit == old(limit) && bwLimited == old(bwLimited)
      ensures best.None? ==> forall p :: p in bwLimited ==> p !in m.congested.flags
      ensures best.Some? ==>
                && best.value in old(bwLimited) && best.value in m.congested.flags
                && limit == old(limit)[best.value := old(limit[best.value]) + 1]
      ensures bwLimited <= old(bwLimited)
    {
      best := RelaxChoice();
      if best.Some? {
        var p := best.value;
        LimitsRaised(reg.spec, limit, bwLimited, p);
        limit := limit[p := limit[p] + 1];
        if limit[p] >= reg.spec[p].max {
          bwLimited := bwLimited - {p};
        }
      }
    }

    /**
     The punishing step of ias_bw_poll. The stale generation that ias_bw_punish leaves in start does
     no harm: the arrays trade places and the new end is requested afresh.
     */
    method PunishAndResample(est: seq<real>, share: real)
      requires Valid() && |est| == ncpu && SamplesOk(end, reg.spec, m, online)
      modifies this`m, this`limit, this`bwLimited, this`start, this`end
      ensures Valid() && Tracked(old(m), m)
      ensures SamplesOk(start, reg.spec, m, online) && SamplesOk(end, reg.spec, m, online)
    {
      PunishWorst(est, share);
      SwapSamples();
    }

    method PunishWorst(est: seq<real>, share: real)
      requires Valid() && |est| == ncpu && SamplesOk(end, reg.spec, m, online)
      modifies this`m, this`limit, this`bwLimited, this`start
      ensures Valid() && Tracked(old(m), m) && SamplesOk(end, reg.spec, m, online)
    {
      var _ := BwPunish(est, share);
      SamplesKept(end, reg.spec, reg.spec, old(m), m, online);
    }

    /** The arrays trade places, and new samples are requested. */
    method SwapSamples()
      requires Valid() && SamplesOk(end, reg.spec, m, online)
      modifies this`start, this`end
      ensures Valid()
      ensures SamplesOk(start, reg.spec, m, online) && SamplesOk(end, reg.spec, m, online)
    {
      start := end;
      end := RequestSamples();
    }

    /** ias_bw_poll in its relaxing state. */
    method PollRelax(throttle: bool)
      requires Running() && Settled() && bwState == Relax
      modifies this`limit, this`bwLimited, this`start, this`bwState
      ensures Running() && Settled() && Sampled()
      ensures throttle ==> bwState == Sample && limit == old(limit) && bwLimited == old(bwLimited)
      ensures !throttle ==> bwState == Relax && bwLimited <= old(bwLimited)
    {
      if throttle {
        BeginSampling();
      } else {
        var _ := BwRelax();
      }
    }

    /** The first samples are requested. */
    method BeginSampling()
      requires Running()
      modifies this`start, this`bwState
      ensures Running() && Sampled() && bwState == Sample
    {
      start := RequestSamples();
      bwState := Sample;
    }

    /** ias_bw_poll after the first samples were requested. */
    method PollSample(arrived: set<nat>)
      requires Running() && Sampled() && bwState == Sample
      modifies this`start, this`end, this`bwState
      ensures Running() && Sampled() && bwState == Punish
    {
      bwState := Punish;
      start := GatherSamples(start, arrived);
      end := RequestSamples();
    }

    /** The second samples are gathered. */
    method GatherEnd(arrived: set<nat>)
      requires Running() && Sampled() && bwState == Punish
      modifies this`end
      ensures Running() && Sampled() && SamplesOk(end, reg.spec, m, online)
    {
      end := GatherSamples(end, arrived);
    }

    /** ias_bw_poll once two samples are there to compare. */
    method PollPunish(throttle: bool, est: seq<real>, share: real, arrived: set<nat>)
      requires Valid() && Sampled() && bwState == Punish && |est| == ncpu
      modifies this`m, this`limit, this`bwLimited, this`start, this`end, this`bwState
      ensures Valid() && Sampled() && Tracked(old(m), m)
      ensures bwState == if throttle then Punish else Relax
      ensures !throttle ==> m == old(m) && limit == old(limit) && bwLimited == old(bwLimited)
    {
      GatherEnd(arrived);
      if throttle {
        PunishAndResample(est, share);
      } else {
        bwState := Relax;
      }
    }

    /** ias_bw_poll. */
    method BwPoll(throttle: bool, est: seq<real>, share: real, arrived: set<nat>)
      requires Valid() && Sampled() && |est| == ncpu
      modifies this`m, this`limit, this`bwLimited, this`start, this`end, this`bwState
      ensures Valid() && Sampled() && Tracked(old(m), m)
      ensures !throttle ==> m == old(m) && bwLimited <= old(bwLimited)
    {
      match bwState {
        case Relax => PollRelax(throttle);
        case Sample => PollSample(arrived);
        case Punish => PollPunish(throttle, est, share, arrived);
      }
    }

    // ---------------------------------------------------------- attaching and detaching

    /** The reservations, for any table of siblings that pairs each of our cores with another core. */
    ghost predicate ReservationsOk()
      reads this`reg
    {
      Mutual(online, sibling, noht) ==> Reserved(reg, online, sibling, noht)
    }

    /**
     The checks of sched_attach_proc and ias_attach. With paired cores, a process whose guarantee was
     admitted never fails to find the cores to reserve.
     */
    method Admit(p: Pid, guaranteed: nat, max: nat, isLc: bool, htPunish: bool)
      returns (r: AttachResult, next: Registry)
      requires Static() && RegistryOk(reg, online) && ReservationsOk() && p !in reg.spec
      ensures r.TooManyGuaranteed? <==> guaranteed + reg.nrGuaranteed > |allowed|
      ensures r.OddGuarantee? <==> guaranteed + reg.nrGuaranteed <= |allowed| && !noht && guaranteed % 2 != 0
      ensures Mutual(online, sibling, noht) ==> !r.NoReservation? && Reserved(next, online, sibling, noht)
      ensures !r.Attached? ==> next == reg.(reservedCores := next.reservedCores)
      ensures r.Attached? ==>
                && RegistryOk(next, online) && p in next.spec && next == Entered(reg, p, next.spec[p])
                && PromisedTo(next.spec[p], guaranteed, max, isLc, htPunish)
                && (Mutual(online, sibling, noht) ==> OursIfEnough(next.spec[p], reg.reservedCores))
    {
      next := reg;
      ListsMeans(online, allowed);
      if guaranteed + reg.nrGuaranteed > |allowed| {
        return TooManyGuaranteed, next;
      }
      if !noht && guaranteed % 2 != 0 {
        return OddGuarantee, next;
      }
      ghost var avail := Avail(reg, online, sibling, noht);
      if Mutual(online, sibling, noht) {
        AdmittedHasRoom(reg, online, sibling, noht, guaranteed);
      }
      var ok, mine, taken := Reserve(sibling, noht, reg.reservedCores, guaranteed, avail, online);
      if !ok {
        return NoReservation, reg.(reservedCores := SymmetricDifference(taken, mine));
      }
      var s := Spec(guaranteed, max, isLc, isLc && htPunish, mine);
      if Mutual(online, sibling, noht) {
        EnteredReserved(reg, online, sibling, noht, p, s);
      }
      EnteredOk(reg, online, p, s);
      return Attached, Entered(reg, p, s);
    }

    ghost predicate PromisedTo(s: Spec, guaranteed: nat, max: nat, isLc: bool, htPunish: bool) {
      s == Spec(guaranteed, max, isLc, isLc && htPunish, s.reserved) && |s.reserved| <= guaranteed
    }

    /** The cores reserved are all ours exactly when enough pairs of ours were free in front of any other core. */
    ghost predicate OursIfEnough(s: Spec, taken: set<nat>) {
      && |s.reserved| == s.guaranteed
      && (s.reserved <= online <==> noht || s.guaranteed <= |OurPairs(taken, online, sibling)|)
    }

    /** sched_attach_proc and ias_attach. */
    method Attach(p: Pid, guaranteed: nat, max: nat, isLc: bool, htPunish: bool) returns (r: AttachResult)
      requires Valid() && ReservationsOk() && p !in reg.spec
      modifies this`reg, this`m, this`limit
      ensures Valid() && ReservationsOk() && Tracked(old(m), m)
      ensures r.TooManyGuaranteed? <==> guaranteed + old(reg.nrGuaranteed) > |allowed|
      ensures r.OddGuarantee? <==> guaranteed + old(reg.nrGuaranteed) <= |allowed| && !noht && guaranteed % 2 != 0
      ensures Mutual(online, sibling, noht) ==> !r.NoReservation?
      ensures !r.Attached? ==> reg.spec == old(reg.spec) && m == old(m) && limit == old(limit)
      ensures r.Attached? ==>
                && p in reg.spec && reg == Entered(old(reg), p, reg.spec[p])
                && PromisedTo(reg.spec[p], guaranteed, max, isLc, htPunish)
                && (Mutual(online, sibling, noht) ==> OursIfEnough(reg.spec[p], old(reg.reservedCores)))
                && m == old(m).(active := old(m.active)[p := 0]) && limit == old(limit)[p := max]
    {
      var next;
      r, next := Admit(p, guaranteed, max, isLc, htPunish);
      if r.Attached? {
        Enter(p, next, max);
      } else {
        reg := next;
      }
    }

    /** An admitted process starts without cores and marks, and with its maximum as limit. */
    method Enter(p: Pid, next: Registry, max: nat)
      requires Valid() && p !in reg.spec && p in next.spec && RegistryOk(next, online)
      requires next == Entered(reg, p, next.spec[p]) && next.spec[p].max == max
      modifies this`reg, this`m, this`limit
      ensures Valid() && Tracked(old(m), m) && reg == next
      ensures m == old(m).(active := old(m.active)[p := 0]) && limit == old(limit)[p := max]
    {
      MachineAttach(reg.spec, m, online, p, next.spec[p]);
      LimitsEntered(reg.spec, limit, bwLimited, p, next.spec[p]);
      limit := limit[p := max];
      m := m.(active := m.active[p := 0]);
      reg := next;
    }

    /** The eviction loop of ias_detach. */
    method Evict(p: Pid) returns (left: Cores)
      ensures Evicted(m.cores, left, |m.cores|, p)
    {
      left := m.cores;
      for c := 0 to |m.cores|
        invariant Evicted(m.cores, left, c, p)
      {
        if left[c] == Some(p) {
          left := left[c := None];
        }
      }
    }

    /** Everything p had but its cores and marks: its entry, its reservation and its limit. */
    method Unregister(p: Pid)
      requires Settled() && ReservationsOk() && p in reg.spec
      modifies this`reg, this`limit, this`bwLimited
      ensures Settled() && ReservationsOk()
      ensures reg == Left(old(reg), p) && limit == old(limit) - {p} && bwLimited == old(bwLimited) - {p}
      ensures reg.spec == old(reg.spec) - {p} && limit.Keys == reg.spec.Keys
    {
      LeftOk(reg, online, p);
      LimitsLeft(reg.spec, limit, bwLimited, p);
      if Mutual(online, sibling, noht) {
        LeftReserved(reg, online, sibling, noht, p);
      }
      reg, limit, bwLimited := Left(reg, p), limit - {p}, bwLimited - {p};
    }

    /** The cores and the marks of p. */
    method ReleaseCores(p: Pid)
      requires Running() && p in reg.spec
      modifies this`m
      ensures Shape() && MachineOk(reg.spec - {p}, m, online) && Tracked(old(m), m)
      ensures Evicted(old(m.cores), m.cores, ncpu, p)
    {
      var left := Evict(p);
      MachineDetach(reg.spec, m, online, p, left);
      m := Detached(m, p, left);
    }

    /** sched_detach_proc and ias_detach: nothing of p is left behind. */
    method Detach(p: Pid)
      requires Valid() && ReservationsOk() && p in reg.spec
      modifies this`reg, this`m, this`limit, this`bwLimited
      ensures Valid() && ReservationsOk() && Tracked(old(m), m)
      ensures reg == Left(old(reg), p) && limit == old(limit) - {p} && bwLimited == old(bwLimited) - {p}
      ensures Evicted(old(m.cores), m.cores, ncpu, p)
    {
      ghost var others := reg.spec - {p};
      ReleaseCores(p);
      Unregister(p);
      assert reg.spec == others && MachineOk(others, m, online);
    }

    // ---------------------------------------------------------------- the poll

    /** The subcontrollers of ias_sched_poll, and the core that a starved process is offered after them. */
    method PollControllers(nobw: bool, throttle: bool, est: seq<real>, share: real, arrived: set<nat>,
                           used: seq<real>, order: seq<nat>)
      requires Valid() && Sampled() && |est| == |used| == ncpu && Lists(online, order)
      modifies this`m, this`limit, this`bwLimited, this`start, this`end, this`bwState,
               this`budget, this`punished, this`punishCount, this`relaxCount
      ensures Valid() && Sampled() && Tracked(old(m), m)
    {
      if !nobw {
        BwPoll(throttle, est, share, arrived);
      }
      PollTail(used, order);
    }

    method PollTail(used: seq<real>, order: seq<nat>)
      requires Working() && Sampled() && |used| == ncpu && Lists(online, order)
      modifies this`m, this`budget, this`punished, this`punishCount, this`relaxCount
      ensures Working() && Sampled() && Tracked(old(m), m)
    {
      if !noht {
        HtPoll(used, order);
      }
      ghost var between := m;
      if m.starved.list != [] {
        var _ := AddKthread(m.starved.list[0]);
        TrackedTrans(old(m), between, m);
      }
      SampledKept(bwState, start, end, reg.spec, reg.spec, old(m), m, online);
    }

    /** ias_sched_poll; the subcontrollers run when their interval has passed. */
    method SchedPoll(nowUs: nat, newlyIdle: set<nat>, due: bool, nobw: bool, throttle: bool, est: seq<real>,
                     share: real, arrived: set<nat>, used: seq<real>, order: seq<nat>)
      requires Valid() && Sampled() && newlyIdle <= online && |est| == |used| == ncpu && Lists(online, order)
      modifies this`now, this`m, this`limit, this`bwLimited, this`start, this`end, this`bwState,
               this`budget, this`punished, this`punishCount, this`relaxCount
      ensures Valid() && Sampled() && Tracked(old(m), m)
      ensures !due ==> GivenUp(m, punished, ncpu)
    {
      now := nowUs;
      AllocateIdle(newlyIdle);
      SampledKept(bwState, start, end, reg.spec, reg.spec, old(m), m, online);
      if due {
        ghost var between := m;
        PollControllers(nobw, throttle, est, share, arrived, used, order);
        TrackedTrans(old(m), between, m);
      }
    }

    // ------------------------------------------------------------------ whole runs

    /** Whoever is below their guarantee may take a core. */
    ghost predicate GuaranteesHonoured()
      requires m.active.Keys == reg.spec.Keys
      reads this
    {
      forall p :: p in reg.spec && BelowGuarantee(p) ==> exists c :: MayTake(reg.spec, m, online, p, c)
    }

    /** What the rest of the iokernel can ask for, with what the environment answers. */
    predicate Wellformed(op: Op)
      reads this
    {
      match op
      case AttachProc(p, _, _, _, _) => p !in reg.spec
      case DetachProc(p) => p in reg.spec
      case CoreNeeded(p) => p in reg.spec
      case Congested(p, _, _, _, _) => p in reg.spec
      case Poll(_, newlyIdle, _, _, _, est, _, _, used, order) =>
        newlyIdle <= online && |est| == |used| == ncpu && Lists(online, order)
    }

    method AttachSampled(p: Pid, guaranteed: nat, max: nat, isLc: bool, htPunish: bool)
      requires Valid() && Sampled() && ReservationsOk() && p !in reg.spec
      modifies this`reg, this`m, this`limit
      ensures Valid() && Sampled() && ReservationsOk()
    {
      var _ := Attach(p, guaranteed, max, isLc, htPunish);
      SampledKept(bwState, start, end, old(reg.spec), reg.spec, old(m), m, online);
    }

    method DetachSampled(p: Pid)
      requires Valid() && Sampled() && ReservationsOk() && p in reg.spec
      modifies this`reg, this`m, this`limit, this`bwLimited
      ensures Valid() && Sampled() && ReservationsOk()
    {
      Detach(p);
      SampledKept(bwState, start, end, old(reg.spec), reg.spec, old(m), m, online);
    }

    method NotifyOrPoll(op: Op)
      requires Valid() && Sampled() && Wellformed(op) && !op.AttachProc? && !op.DetachProc?
      modifies this`now, this`m, this`limit, this`bwLimited, this`start, this`end, this`bwState,
               this`budget, this`punished, this`punishCount, this`relaxCount
      ensures Valid() && Sampled()
    {
      match op {
        case CoreNeeded(p) =>
          NotifyCoreNeeded(p);
          SampledKept(bwState, start, end, reg.spec, reg.spec, old(m), m, online);
        case Congested(p, qdelayUs, standingQueue, maxDelayUs, parkedBusy) =>
          var _ := NotifyCongested(p, qdelayUs, standingQueue, maxDelayUs, parkedBusy);
          SampledKept(bwState, start, end, reg.spec, reg.spec, old(m), m, online);
        case Poll(nowUs, newlyIdle, due, nobw, throttle, est, share, arrived, used, order) =>
          SchedPoll(nowUs, newlyIdle, due, nobw, throttle, est, share, arrived, used, order);
      }
    }

    lemma HonoursGuarantees()
      requires Valid()
      ensures GuaranteesHonoured()
    {
      forall p | p in reg.spec && BelowGuarantee(p)
        ensures exists c :: MayTake(reg.spec, m, online, p, c)
      {
        GuaranteedTakes(p);
      }
    }

    method Perform(op: Op)
      requires Valid() && Sampled() && ReservationsOk() && Wellformed(op)
      modifies this
      ensures Valid() && Sampled() && ReservationsOk()
    {
      match op {
        case AttachProc(p, guaranteed, max, isLc, htPunish) => AttachSampled(p, guaranteed, max, isLc, htPunish);
        case DetachProc(p) => DetachSampled(p);
        case _ => NotifyOrPoll(op);
      }
    }

    /** After any sequence of operations every invariant holds and every guarantee is honoured. */
    method Drive(ops: seq<Op>)
      requires Valid() && Sampled() && ReservationsOk()
      modifies this
      ensures Valid() && Sampled() && ReservationsOk() && GuaranteesHonoured()
    {
      for i := 0 to |ops|
        invariant Valid() && Sampled() && ReservationsOk()
      {
        if Wellformed(ops[i]) {
          Perform(ops[i]);
        }
      }
      HonoursGuarantees();
    }
  }
}
