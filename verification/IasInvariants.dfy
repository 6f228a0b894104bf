/** The invariants of the interference-aware scheduler, on values. */
module IasInvariants {
  import opened Wrappers
  import opened ListSets
  import opened IasPolicy

  /** A set of marked processes (the flag in each) and the list they are linked on. */
  datatype Marks = Marks(flags: set<Pid>, list: seq<Pid>)

  function Unlinked(k: Marks, p: Pid): Marks {
    if p in k.flags then Marks(k.flags - {p}, Without(k.list, p)) else k
  }

  lemma UnlinkedLists(k: Marks, p: Pid)
    requires Lists(k.flags, k.list)
    ensures Lists(Unlinked(k, p).flags, Unlinked(k, p).list)
  {
    if p in k.flags {
      ListsWithout(k.flags, k.list, p);
    }
  }

  function AddedLast(k: Marks, p: Pid): Marks {
    if p in k.flags then k else Marks(k.flags + {p}, k.list + [p])
  }

  function AddedFirst(k: Marks, p: Pid): Marks {
    if p in k.flags then k else Marks(k.flags + {p}, [p] + k.list)
  }

  /** The lists hold the marked processes; a starved one is latency-critical, congested and has no core. */
  ghost predicate MarksOk(spec: Specs, active: Active, starved: Marks, congested: Marks)
    requires active.Keys == spec.Keys
  {
    && Lists(starved.flags, starved.list) && Lists(congested.flags, congested.list)
    && (forall p :: p in starved.flags ==> p in spec && spec[p].isLc && p in congested.flags && active[p] == 0)
    && congested.flags <= spec.Keys
  }

  /** A process is bandwidth-limited exactly while its limit is below its maximum; no latency-critical one is. */
  ghost predicate LimitsOk(spec: Specs, limit: map<Pid, int>, bwLimited: set<Pid>) {
    && limit.Keys == spec.Keys
    && (forall p :: p in bwLimited ==> p in spec && !spec[p].isLc)
    && (forall p :: p in spec ==> 0 <= limit[p] <= spec[p].max && (p in bwLimited <==> limit[p] < spec[p].max))
  }

  /** The limit ias_bw_throttle_core sets. */
  function Throttled(limit: int, active: int): int {
    var least := if limit - 1 < active - 1 then limit - 1 else active - 1;
    if least > 0 then least else 0
  }

  /** Throttling keeps a process's guarantee exactly when it runs on more cores than it was promised. */
  lemma ThrottleAndGuarantee(limit: int, active: int, guaranteed: nat)
    requires limit > guaranteed && active > 0
    ensures Throttled(limit, active) >= guaranteed <==> active > guaranteed
  {
  }

  lemma LimitsThrottled(spec: Specs, limit: map<Pid, int>, bwLimited: set<Pid>, p: Pid, active: int)
    requires LimitsOk(spec, limit, bwLimited) && p in spec && !spec[p].isLc && limit[p] > 0
    ensures LimitsOk(spec, limit[p := Throttled(limit[p], active)], bwLimited + {p})
  {
  }

  lemma LimitsRaised(spec: Specs, limit: map<Pid, int>, bwLimited: set<Pid>, p: Pid)
    requires LimitsOk(spec, limit, bwLimited) && p in bwLimited
    ensures LimitsOk(spec, limit[p := limit[p] + 1],
                     if limit[p] + 1 >= spec[p].max then bwLimited - {p} else bwLimited)
  {
  }

  lemma LimitsEntered(spec: Specs, limit: map<Pid, int>, bwLimited: set<Pid>, p: Pid, s: Spec)
    requires LimitsOk(spec, limit, bwLimited) && p !in spec
    ensures LimitsOk(spec[p := s], limit[p := s.max], bwLimited)
  {
  }

  lemma LimitsLeft(spec: Specs, limit: map<Pid, int>, bwLimited: set<Pid>, p: Pid)
    requires LimitsOk(spec, limit, bwLimited)
    ensures LimitsOk(spec - {p}, limit - {p}, bwLimited - {p})
  {
  }

  type Times = map<(Pid, nat), nat>    // loc_last_us, zero when absent

  /** Record when the process on the core leaves it. */
  function LeftAt(lastUs: Times, cores: Cores, core: nat, now: nat): Times
    requires core < |cores|
  {
    match cores[core]
    case Some(q) => lastUs[(q, core) := now]
    case None => lastUs
  }

  // ------------------------------------------------------------ cores and marks

  /** Who has which core, and who waits for one. */
  datatype Machine = Machine(
    cores: Cores,             // the process each core is charged to
    active: Active,           // threads_active
    gen: seq<nat>,            // ias_gen
    idle: set<nat>,           // ias_idle_cores
    starved: Marks,           // is_starved and starved_procs
    congested: Marks,         // is_congested and congested_procs
    lastUs: Times)            // loc_last_us

  /** The core accounting together with the marks. */
  ghost predicate MachineOk(spec: Specs, m: Machine, online: set<nat>) {
    && m.active.Keys == spec.Keys
    && |m.gen| == |m.cores|
    && (forall c :: c in online ==> c < |m.cores|)
    && m.idle <= online
    && Books(m.active, m.cores, online)
    && MarksOk(spec, m.active, m.starved, m.congested)
  }

  /** Between two states, putting another process on a core always starts a new generation there. */
  ghost predicate Tracked(m: Machine, m': Machine) {
    && |m.gen| == |m'.gen| == |m.cores| == |m'.cores|
    && forall c :: 0 <= c < |m.gen| ==>
         && m.gen[c] <= m'.gen[c]
         && (m.gen[c] == m'.gen[c] ==> m'.cores[c] == m.cores[c] || m'.cores[c] == None)
  }

  lemma TrackedTrans(m: Machine, m1: Machine, m2: Machine)
    requires Tracked(m, m1) && Tracked(m1, m2)
    ensures Tracked(m, m2)
  {
    forall c | 0 <= c < |m.gen|
      ensures m.gen[c] <= m2.gen[c]
      ensures m.gen[c] == m2.gen[c] ==> m2.cores[c] == m.cores[c] || m2.cores[c] == None
    {
      assert m.gen[c] <= m1.gen[c] <= m2.gen[c];
    }
  }

  /** ias_cleanup_core. */
  function CleanedUp(m: Machine, core: nat, now: nat): Machine
    requires core < |m.cores|
  {
    m.(active := Cleaned(m.active, m.cores, core), cores := m.cores[core := None],
       lastUs := LeftAt(m.lastUs, m.cores, core, now))
  }

  /** A kthread of p runs on the core. */
  function RunOn(m: Machine, p: Pid, core: nat, now: nat): Machine
    requires core < |m.cores| == |m.gen| && p in m.active
  {
    m.(active := Granted(m.active, m.cores, p, core), cores := m.cores[core := Some(p)],
       lastUs := LeftAt(m.lastUs, m.cores, core, now), gen := m.gen[core := m.gen[core] + 1],
       idle := m.idle - {core}, starved := Unlinked(m.starved, p))
  }

  /** The core idles but stays charged to p. */
  function HoldFor(m: Machine, p: Pid, core: nat, now: nat): Machine
    requires core < |m.cores| == |m.gen| && p in m.active
  {
    m.(active := Granted(m.active, m.cores, p, core), cores := m.cores[core := Some(p)],
       lastUs := LeftAt(m.lastUs, m.cores, core, now), gen := m.gen[core := m.gen[core] + 1],
       idle := m.idle + {core})
  }

  /** The core idles and is charged to nobody. */
  function IdleOn(m: Machine, core: nat, now: nat): Machine
    requires core < |m.cores| == |m.gen|
  {
    CleanedUp(m, core, now).(gen := m.gen[core := m.gen[core] + 1], idle := m.idle + {core})
  }

  /** ias_mark_congested: a latency-critical process without a core starves as well. */
  function Marked(spec: Specs, m: Machine, p: Pid): Machine
    requires p in spec && p in m.active
  {
    m.(starved := if spec[p].isLc && m.active[p] == 0 then AddedLast(m.starved, p) else m.starved,
       congested := AddedFirst(m.congested, p))
  }

  /** ias_unmark_congested. */
  function Unmarked(m: Machine, p: Pid): Machine {
    m.(starved := Unlinked(m.starved, p), congested := Unlinked(m.congested, p))
  }

  /** Taking a core away keeps the books and the marks: a starved process had none. */
  lemma CleanedUpOk(spec: Specs, m: Machine, online: set<nat>, core: nat, now: nat)
    requires MachineOk(spec, m, online) && core < |m.cores|
    ensures MachineOk(spec, CleanedUp(m, core, now), online) && Tracked(m, CleanedUp(m, core, now))
  {
    CleanedBooks(m.active, m.cores, core, online);
    forall p | p in m.starved.flags
      ensures Cleaned(m.active, m.cores, core)[p] == 0
    {
      assert p in m.active;
    }
  }

  lemma IdleOnOk(spec: Specs, m: Machine, online: set<nat>, core: nat, now: nat)
    requires MachineOk(spec, m, online) && core in online
    ensures MachineOk(spec, IdleOn(m, core, now), online) && Tracked(m, IdleOn(m, core, now))
  {
    CleanedUpOk(spec, m, online, core, now);
  }

  /** Running p on a core lifts its starvation. */
  lemma RunOnOk(spec: Specs, m: Machine, online: set<nat>, p: Pid, core: nat, now: nat)
    requires MachineOk(spec, m, online) && core in online && p in spec
    ensures MachineOk(spec, RunOn(m, p, core, now), online) && Tracked(m, RunOn(m, p, core, now))
  {
    UnlinkedLists(m.starved, p);
    GrantedBooks(m.active, m.cores, online, p, core);
    CleanedUpOk(spec, m, online, core, now);
  }

  /** A held core must not be charged to a starved process. */
  lemma HoldForOk(spec: Specs, m: Machine, online: set<nat>, p: Pid, core: nat, now: nat)
    requires MachineOk(spec, m, online) && core in online && p in spec && p !in m.starved.flags
    ensures MachineOk(spec, HoldFor(m, p, core, now), online) && Tracked(m, HoldFor(m, p, core, now))
  {
    RunOnOk(spec, m, online, p, core, now);
  }

  lemma MarkedOk(spec: Specs, m: Machine, online: set<nat>, p: Pid)
    requires MachineOk(spec, m, online) && p in spec
    ensures MachineOk(spec, Marked(spec, m, p), online) && Tracked(m, Marked(spec, m, p))
  {
    if p !in m.starved.flags {
      ListsSnoc(m.starved.flags, m.starved.list, p);
    }
    if p !in m.congested.flags {
      ListsCons(m.congested.flags, m.congested.list, p);
    }
  }

  lemma UnmarkedOk(spec: Specs, m: Machine, online: set<nat>, p: Pid)
    requires MachineOk(spec, m, online)
    ensures MachineOk(spec, Unmarked(m, p), online) && Tracked(m, Unmarked(m, p))
  {
    UnlinkedLists(m.starved, p);
    UnlinkedLists(m.congested, p);
  }

  /** A process that has a core is counted as active. */
  lemma OccupantActive(spec: Specs, m: Machine, online: set<nat>, p: Pid, core: nat)
    requires MachineOk(spec, m, online) && p in spec && core < |m.cores| && m.cores[core] == Some(p)
    ensures m.active[p] > 0
  {
    CountPositive(m.cores, |m.cores|, core, p);
  }

  /** A process that has a core is not starved. */
  lemma OccupantNotStarved(spec: Specs, m: Machine, online: set<nat>, p: Pid, core: nat)
    requires MachineOk(spec, m, online) && core < |m.cores| && m.cores[core] == Some(p)
    ensures p in spec && core in online && m.active[p] > 0 && p !in m.starved.flags
  {
    CountPositive(m.cores, |m.cores|, core, p);
  }

  // --------------------------------------------------------- who may have a core

  /** p may preempt this core of ours. */
  ghost predicate MayTake(spec: Specs, m: Machine, online: set<nat>, p: Pid, core: nat) {
    && core in online && core < |m.cores| && p in spec && m.active.Keys == spec.Keys
    && CanPreempt(spec, m.active, m.cores, p, core)
  }

  /** A grant of such a core is a step of the runs whose length IasPolicy bounds. */
  lemma TakingIsGrantStep(spec: Specs, m: Machine, online: set<nat>, p: Pid, core: nat, now: nat)
    requires MayTake(spec, m, online, p, core) && |m.gen| == |m.cores|
    ensures var m' := RunOn(m, p, core, now);
            GrantNext(spec, Allocation(m.active, m.cores), Allocation(m'.active, m'.cores), online)
  {
    var m' := RunOn(m, p, core, now);
    assert GrantStep(spec, Allocation(m.active, m.cores), Allocation(m'.active, m'.cores), online, p, core);
  }

  /** A core that p holds back from its sibling's hyperthread. */
  ghost predicate HeldBack(m: Machine, punished: set<nat>, online: set<nat>, p: Pid, core: nat) {
    core in online && core in punished && core < |m.cores| && m.cores[core] == Some(p)
  }

  /** A congested process that may have one more core. */
  ghost predicate Eligible(m: Machine, limit: map<Pid, int>, p: Pid) {
    p in m.congested.flags && p in m.active && p in limit && m.active[p] < limit[p]
  }

  /** Whom an idle core may be given to. */
  ghost predicate Deserves(m: Machine, limit: map<Pid, int>, p: Pid) {
    p in m.starved.flags || Eligible(m, limit, p)
  }

  /** ias_kthread_score, on a machine of ncpu cores. */
  function KthreadScore(spec: Specs, active: Active, ncpu: nat, p: Pid, core: nat): int
    requires p in spec && p in active
  {
    var burst := Burst(spec, active, p);
    (if core in spec[p].reserved then 4 * ncpu else 0) + (if spec[p].isLc then 2 * ncpu else 0)
    + ncpu - (if burst > 0 then burst else 0)
  }

  /** The score ranks by reservation, then by priority, then by fewest burst cores. */
  lemma KthreadScoreRanks(spec: Specs, active: Active, cores: Cores, online: set<nat>, p: Pid, q: Pid, core: nat)
    requires active.Keys == spec.Keys && Books(active, cores, online) && p in spec && q in spec && core < |cores|
    ensures KthreadScore(spec, active, |cores|, p, core) > KthreadScore(spec, active, |cores|, q, core) <==>
            var rp, rq := core in spec[p].reserved, core in spec[q].reserved;
            var bp, bq := Burst(spec, active, p), Burst(spec, active, q);
            || (rp && !rq)
            || (rp == rq && spec[p].isLc && !spec[q].isLc)
            || (rp == rq && spec[p].isLc == spec[q].isLc && bq > 0 && bp < bq)
  {
    assert active[p] == CountOn(cores, p) && active[q] == CountOn(cores, q);
  }

  // ----------------------------------------------------------- bandwidth samples

  /** A sample that is current was taken from a core that no latency-critical process runs on. */
  ghost predicate SampleOk(samples: seq<int>, spec: Specs, m: Machine, c: nat) {
    c < |samples| && c < |m.gen| && c < |m.cores| ==>
      && samples[c] <= m.gen[c]
      && (samples[c] == m.gen[c] && m.cores[c].Some? && m.cores[c].value in spec ==> !spec[m.cores[c].value].isLc)
  }

  ghost predicate SamplesOk(samples: seq<int>, spec: Specs, m: Machine, online: set<nat>) {
    forall c :: c in online ==> SampleOk(samples, spec, m, c)
  }

  /** Samples survive every tracked change, and processes coming and going. */
  lemma SamplesKept(samples: seq<int>, spec: Specs, spec': Specs, m: Machine, m': Machine, online: set<nat>)
    requires SamplesOk(samples, spec, m, online) && Tracked(m, m') && MachineOk(spec, m, online)
    requires forall p :: p in spec && p in spec' ==> spec[p].isLc == spec'[p].isLc
    ensures SamplesOk(samples, spec', m', online)
  {
    forall c | c in online
      ensures SampleOk(samples, spec', m', c)
    {
      assert SampleOk(samples, spec, m, c);
    }
  }

  datatype BwState = Relax | Sample | Punish

  /** What the two sample arrays are good for, in each state of the bandwidth controller. */
  ghost predicate SampledOk(state: BwState, start: seq<int>, end: seq<int>, spec: Specs, m: Machine, online: set<nat>) {
    && (state.Sample? || state.Punish? ==> SamplesOk(start, spec, m, online))
    && (state.Punish? ==> SamplesOk(end, spec, m, online))
  }

  lemma SampledKept(state: BwState, start: seq<int>, end: seq<int>, spec: Specs, spec': Specs,
                    m: Machine, m': Machine, online: set<nat>)
    requires SampledOk(state, start, end, spec, m, online) && Tracked(m, m') && MachineOk(spec, m, online)
    requires forall p :: p in spec && p in spec' ==> spec[p].isLc == spec'[p].isLc
    ensures SampledOk(state, start, end, spec', m', online)
  {
    if !state.Relax? {
      SamplesKept(start, spec, spec', m, m', online);
    }
    if state.Punish? {
      SamplesKept(end, spec, spec', m, m', online);
    }
  }

  /**
   Four cores of ours and one best-effort process, promised two of them and allowed all, running on
   one: throttling that core limits the process to none.
   */
  lemma ThrottledBelowGuarantee() returns (spec: Specs, m: Machine, limit: map<Pid, int>)
    ensures var online := {0, 1, 2, 3};
            && MachineOk(spec, m, online) && Admitted(spec, [1], online) && LimitsOk(spec, limit, {})
            && 1 in spec && !spec[1].isLc && spec[1].guaranteed == 2 && limit[1] > spec[1].guaranteed
            && m.cores[0] == Some(1) && Throttled(limit[1], m.active[1]) == 0
  {
    spec := map[1 := Spec(2, 4, false, false, {0, 1})];
    limit := map[1 := 4];
    m := Machine([Some(1), None, None, None], map[1 := 1], [1, 0, 0, 0], {1, 2, 3},
                 Marks({}, []), Marks({}, []), map[]);
    assert CountBelow(m.cores, 1, 1) == 1;
    assert CountBelow(m.cores, 2, 1) == 1;
    assert CountBelow(m.cores, 3, 1) == 1;
    assert CountOn(m.cores, 1) == 1;
  }

  // ----------------------------------------------------------- attaching and detaching

  /** Who is attached, and what that promised. */
  datatype Registry = Registry(
    all: seq<Pid>,             // all_procs
    spec: Specs,
    nrGuaranteed: nat,
    reservedCores: set<nat>)   // ias_reserved_cores

  ghost predicate RegistryOk(reg: Registry, online: set<nat>) {
    Admitted(reg.spec, reg.all, online) && SumGuaranteed(reg.spec, reg.all) == reg.nrGuaranteed
  }

  function SymmetricDifference(a: set<nat>, b: set<nat>): set<nat> {
    (a - b) + (b - a)
  }

  /** The registry after p has attached. */
  function Entered(reg: Registry, p: Pid, s: Spec): Registry {
    Registry([p] + reg.all, reg.spec[p := s], reg.nrGuaranteed + s.guaranteed, reg.reservedCores + s.reserved)
  }

  /** The registry after p has detached. */
  function Left(reg: Registry, p: Pid): Registry
    requires p in reg.spec
  {
    var n := reg.nrGuaranteed - reg.spec[p].guaranteed;
    Registry(Without(reg.all, p), reg.spec - {p}, if n >= 0 then n else 0,
             SymmetricDifference(reg.reservedCores, reg.spec[p].reserved))
  }

  lemma EnteredOk(reg: Registry, online: set<nat>, p: Pid, s: Spec)
    requires RegistryOk(reg, online) && p !in reg.spec && |s.reserved| <= s.guaranteed
    requires reg.nrGuaranteed + s.guaranteed <= |online|
    ensures RegistryOk(Entered(reg, p, s), online)
  {
    AdmittedAttach(reg.spec, reg.all, online, p, s);
  }

  lemma LeftOk(reg: Registry, online: set<nat>, p: Pid)
    requires RegistryOk(reg, online) && p in reg.spec
    ensures RegistryOk(Left(reg, p), online) && reg.nrGuaranteed == Left(reg, p).nrGuaranteed + reg.spec[p].guaranteed
  {
    AdmittedDetach(reg.spec, reg.all, online, p);
  }

  /** The guarantees of the other processes do not depend on p. */
  lemma {:induction false} SumGuaranteedAgree(spec: Specs, spec': Specs, all: seq<Pid>, p: Pid)
    requires p !in all && forall q :: q != p ==> (q in spec <==> q in spec') && (q in spec ==> spec[q] == spec'[q])
    ensures SumGuaranteed(spec, all) == SumGuaranteed(spec', all)
    decreases |all|
  {
    if all != [] {
      SumGuaranteedAgree(spec, spec', all[1..], p);
    }
  }

  lemma AdmittedAttach(spec: Specs, all: seq<Pid>, online: set<nat>, p: Pid, s: Spec)
    requires Admitted(spec, all, online) && p !in spec && |s.reserved| <= s.guaranteed
    requires SumGuaranteed(spec, all) + s.guaranteed <= |online|
    ensures Admitted(spec[p := s], [p] + all, online)
    ensures SumGuaranteed(spec[p := s], [p] + all) == SumGuaranteed(spec, all) + s.guaranteed
  {
    ListsMeans(spec.Keys, all);
    ListsCons(spec.Keys, all, p);
    assert spec[p := s].Keys == spec.Keys + {p};
    assert ([p] + all)[1..] == all;
    SumGuaranteedAgree(spec, spec[p := s], all, p);
  }

  lemma {:induction false} SumGuaranteedWithout(spec: Specs, all: seq<Pid>, p: Pid)
    requires Distinct(all) && p in all && p in spec
    ensures SumGuaranteed(spec, all) == SumGuaranteed(spec - {p}, Without(all, p)) + spec[p].guaranteed
    decreases |all|
  {
    if all[0] == p {
      SumGuaranteedAgree(spec, spec - {p}, all[1..], p);
    } else {
      assert all == [all[0]] + all[1..];
      SumGuaranteedWithout(spec, all[1..], p);
      assert Without(all, p)[1..] == Without(all[1..], p);
    }
  }

  lemma AdmittedDetach(spec: Specs, all: seq<Pid>, online: set<nat>, p: Pid)
    requires Admitted(spec, all, online) && p in spec
    ensures Admitted(spec - {p}, Without(all, p), online)
    ensures SumGuaranteed(spec, all) == SumGuaranteed(spec - {p}, Without(all, p)) + spec[p].guaranteed
  {
    ListsMeans(spec.Keys, all);
    ListsWithout(spec.Keys, all, p);
    assert (spec - {p}).Keys == spec.Keys - {p};
    SumGuaranteedWithout(spec, all, p);
  }

  lemma {:induction false} CountNone(cores: Cores, n: nat, p: Pid)
    requires n <= |cores| && forall c :: 0 <= c < n ==> cores[c] != Some(p)
    ensures CountBelow(cores, n, p) == 0
    decreases n
  {
    if n > 0 {
      CountNone(cores, n - 1, p);
    }
  }

  /** A new process starts with no core and no mark. */
  lemma MachineAttach(spec: Specs, m: Machine, online: set<nat>, p: Pid, s: Spec)
    requires MachineOk(spec, m, online) && p !in spec
    ensures MachineOk(spec[p := s], m.(active := m.active[p := 0]), online)
  {
    CountNone(m.cores, |m.cores|, p);
  }

  /** ias_detach clears every core of p. */
  ghost predicate Evicted(cores: Cores, cores': Cores, n: nat, p: Pid) {
    && |cores'| == |cores|
    && forall c :: 0 <= c < |cores| ==> cores'[c] == if c < n && cores[c] == Some(p) then None else cores[c]
  }

  lemma {:induction false} CountEvicted(cores: Cores, cores': Cores, n: nat, p: Pid, q: Pid)
    requires Evicted(cores, cores', |cores|, p) && q != p && n <= |cores|
    ensures CountBelow(cores', n, q) == CountBelow(cores, n, q)
    decreases n
  {
    if n > 0 {
      CountEvicted(cores, cores', n - 1, p, q);
    }
  }

  /** The machine without p, once its cores are cleared. */
  function Detached(m: Machine, p: Pid, left: Cores): Machine {
    Unmarked(m, p).(cores := left, active := m.active - {p})
  }

  lemma MachineDetach(spec: Specs, m: Machine, online: set<nat>, p: Pid, cores': Cores)
    requires MachineOk(spec, m, online) && p in spec && Evicted(m.cores, cores', |m.cores|, p)
    ensures MachineOk(spec - {p}, Detached(m, p, cores'), online) && Tracked(m, Detached(m, p, cores'))
  {
    UnlinkedLists(m.starved, p);
    UnlinkedLists(m.congested, p);
    forall q | q in m.active && q != p
      ensures m.active[q] == CountOn(cores', q)
    {
      CountEvicted(m.cores, cores', |m.cores|, p, q);
    }
  }

  /** The machine before anyone is attached. */
  function Unused(ncpu: nat): Machine {
    Machine(seq(ncpu, _ => None), map[], seq(ncpu, _ => 0), {}, Marks({}, []), Marks({}, []), map[])
  }

  /** The registry before anyone is attached: every core that is not ours counts as reserved. */
  function Unattached(ncpu: nat, online: set<nat>): Registry {
    Registry([], map[], 0, set c: nat | c < ncpu && c !in online)
  }

  lemma UnusedOk(ncpu: nat, online: set<nat>)
    requires forall c :: c in online ==> c < ncpu
    ensures MachineOk(map[], Unused(ncpu), online) && RegistryOk(Unattached(ncpu, online), online)
  {
  }
}
