/**
 The rules of the interference-aware scheduler (IAS): who may preempt which core,
 how cores are counted, and what follows from the rules in every state that keeps
 the books straight.
 */
module IasPolicy {
  import opened Wrappers
  import opened ListSets

  type Pid = nat

  /** What attaching a process fixes: the constant part of struct ias_data. */
  datatype Spec = Spec(guaranteed: nat, max: nat, isLc: bool, htPunish: bool, reserved: set<nat>)

  type Specs = map<Pid, Spec>
  type Active = map<Pid, int>          // threads_active
  type Cores = seq<Option<Pid>>        // the process mapped to each core

  /** The cores p has beyond its guarantee. */
  function Burst(spec: Specs, active: Active, p: Pid): int {
    if p in spec && p in active then active[p] - spec[p].guaranteed else 0
  }

  /** ias_can_preempt_core. */
  predicate CanPreempt(spec: Specs, active: Active, cores: Cores, p: Pid, core: nat)
    requires p in spec && active.Keys == spec.Keys && core < |cores|
  {
    match cores[core]
    case None => true
    case Some(q) =>
      && q in spec && q != p
      && core !in spec[q].reserved
      && (spec[q].isLc ==> spec[p].isLc)
      && (spec[q].isLc == spec[p].isLc ==> Burst(spec, active, q) > Burst(spec, active, p) + 1)
  }

  // ------------------------------------------------------------------- counting

  /** The number of cores below n that are mapped to p. */
  ghost function CountBelow(cores: Cores, n: nat, p: Pid): (k: nat)
    requires n <= |cores|
    ensures k <= n
  {
    if n == 0 then 0 else CountBelow(cores, n - 1, p) + if cores[n - 1] == Some(p) then 1 else 0
  }

  /** The number of cores mapped to p. */
  ghost function CountOn(cores: Cores, p: Pid): (k: nat)
    ensures k <= |cores|
  {
    CountBelow(cores, |cores|, p)
  }

  /** The number of cores below n that are mapped to any process. */
  ghost function OccupiedBelow(cores: Cores, n: nat): (k: nat)
    requires n <= |cores|
    ensures k <= n
  {
    if n == 0 then 0 else OccupiedBelow(cores, n - 1) + if cores[n - 1].Some? then 1 else 0
  }

  /** The number of cores mapped to any process. */
  ghost function Occupied(cores: Cores): (k: nat)
    ensures k <= |cores|
  {
    OccupiedBelow(cores, |cores|)
  }

  lemma {:induction false} CountBelowUpdate(cores: Cores, n: nat, c: nat, o: Option<Pid>, p: Pid)
    requires c < |cores| && n <= |cores|
    ensures CountBelow(cores[c := o], n, p)
            == CountBelow(cores, n, p)
               + if c < n then (if o == Some(p) then 1 else 0) - (if cores[c] == Some(p) then 1 else 0) else 0
    decreases n
  {
    if n > 0 {
      CountBelowUpdate(cores, n - 1, c, o, p);
    }
  }

  lemma CountUpdate(cores: Cores, c: nat, o: Option<Pid>, p: Pid)
    requires c < |cores|
    ensures CountOn(cores[c := o], p)
            == CountOn(cores, p) - (if cores[c] == Some(p) then 1 else 0) + (if o == Some(p) then 1 else 0)
  {
    CountBelowUpdate(cores, |cores|, c, o, p);
  }

  lemma {:induction false} CountPositive(cores: Cores, n: nat, c: nat, p: Pid)
    requires c < n <= |cores| && cores[c] == Some(p)
    ensures CountBelow(cores, n, p) > 0
    decreases n
  {
    if c < n - 1 {
      CountPositive(cores, n - 1, c, p);
    }
  }

  /** A process that only sits on cores of a set sits on at most that many. */
  lemma {:induction false} CountWithin(cores: Cores, n: nat, p: Pid, home: set<nat>)
    requires n <= |cores| && forall c: nat :: c < n && cores[c] == Some(p) ==> c in home
    ensures CountBelow(cores, n, p) <= |home|
    decreases n
  {
    if n > 0 {
      CountWithin(cores, n - 1, p, if cores[n - 1] == Some(p) then home - {n - 1} else home);
    }
  }

  /** The cores of a set that are all occupied are counted as occupied. */
  lemma {:induction false} OccupiedCovers(cores: Cores, n: nat, s: set<nat>)
    requires n <= |cores| && forall c :: c in s ==> c < n && cores[c].Some?
    ensures OccupiedBelow(cores, n) >= |s|
    decreases n
  {
    if n == 0 {
      assert s == {};
    } else {
      OccupiedCovers(cores, n - 1, s - {n - 1});
      assert n - 1 in s ==> s == (s - {n - 1}) + {n - 1};
      assert n - 1 !in s ==> s == s - {n - 1};
    }
  }

  // ------------------------------------------------------------ sums over processes

  ghost function SumCount(cores: Cores, n: nat, all: seq<Pid>): nat
    requires n <= |cores|
  {
    if all == [] then 0 else CountBelow(cores, n, all[0]) + SumCount(cores, n, all[1..])
  }

  ghost function SumGuaranteed(spec: Specs, all: seq<Pid>): nat {
    if all == [] then 0
    else (if all[0] in spec then spec[all[0]].guaranteed else 0) + SumGuaranteed(spec, all[1..])
  }

  /** One more core adds one to the sum exactly when a listed process has it. */
  lemma {:induction false} SumCountStep(cores: Cores, n: nat, all: seq<Pid>)
    requires 0 < n <= |cores| && Distinct(all)
    ensures var o := cores[n - 1];
            SumCount(cores, n, all) == SumCount(cores, n - 1, all) + if o.Some? && o.value in all then 1 else 0
    decreases |all|
  {
    if all != [] {
      SumCountStep(cores, n, all[1..]);
      assert all == [all[0]] + all[1..];
    }
  }

  lemma {:induction false} SumCountNone(cores: Cores, all: seq<Pid>)
    ensures SumCount(cores, 0, all) == 0
    decreases |all|
  {
    if all != [] {
      SumCountNone(cores, all[1..]);
    }
  }

  /** Every occupied core is counted for exactly one process. */
  lemma {:induction false} SumCountIsOccupied(cores: Cores, n: nat, all: seq<Pid>)
    requires n <= |cores| && Distinct(all)
    requires forall c :: 0 <= c < n && cores[c].Some? ==> cores[c].value in all
    ensures SumCount(cores, n, all) == OccupiedBelow(cores, n)
    decreases n
  {
    if n == 0 {
      SumCountNone(cores, all);
    } else {
      SumCountStep(cores, n, all);
      SumCountIsOccupied(cores, n - 1, all);
    }
  }

  /** If every process stays within its guarantee and one is below it, the sums differ. */
  lemma {:induction false} SumsCompare(spec: Specs, cores: Cores, all: seq<Pid>, p: Pid)
    requires forall q :: q in all ==> q in spec && CountOn(cores, q) <= spec[q].guaranteed
    ensures SumCount(cores, |cores|, all) <= SumGuaranteed(spec, all)
    ensures p in all && CountOn(cores, p) < spec[p].guaranteed ==>
              SumCount(cores, |cores|, all) < SumGuaranteed(spec, all)
    decreases |all|
  {
    if all != [] {
      SumsCompare(spec, cores, all[1..], p);
    }
  }

  // ------------------------------------------------------------------- the books

  /** threads_active is the number of cores mapped to the process; only allowed cores are mapped. */
  ghost predicate Books(active: Active, cores: Cores, allowed: set<nat>) {
    && (forall p :: p in active ==> active[p] == CountOn(cores, p))
    && (forall c :: 0 <= c < |cores| && cores[c].Some? ==> cores[c].value in active && c in allowed)
  }

  /** The list of processes, the reservations and the admitted guarantees. */
  ghost predicate Admitted(spec: Specs, all: seq<Pid>, allowed: set<nat>) {
    && Lists(spec.Keys, all)
    && (forall p :: p in spec ==> |spec[p].reserved| <= spec[p].guaranteed)
    && SumGuaranteed(spec, all) <= |allowed|
  }

  /** A process below its guarantee that is refused everywhere leaves no other above its own. */
  lemma RefusedMeansModest(spec: Specs, active: Active, cores: Cores, p: Pid, q: Pid)
    requires active.Keys == spec.Keys && p in spec && q in spec && q != p
    requires spec[p].isLc && active[p] < spec[p].guaranteed
    requires active[q] == CountOn(cores, q) && |spec[q].reserved| <= spec[q].guaranteed
    requires forall c: nat :: c < |cores| && cores[c] == Some(q) ==> !CanPreempt(spec, active, cores, p, c)
    ensures CountOn(cores, q) <= spec[q].guaranteed
  {
    if forall c: nat :: c < |cores| && cores[c] == Some(q) ==> c in spec[q].reserved {
      CountWithin(cores, |cores|, q, spec[q].reserved);
    }
  }

  /**
   The guarantee: a latency-critical process that runs on fewer cores than it was
   promised can always preempt some allowed core.
   */
  lemma GuaranteedFindsCore(spec: Specs, active: Active, cores: Cores, all: seq<Pid>, allowed: set<nat>, p: Pid)
    requires active.Keys == spec.Keys && Books(active, cores, allowed) && Admitted(spec, all, allowed)
    requires forall c :: c in allowed ==> c < |cores|
    requires p in spec && spec[p].isLc && active[p] < spec[p].guaranteed
    ensures exists c :: c in allowed && CanPreempt(spec, active, cores, p, c)
  {
    ListsMeans(spec.Keys, all);
    if forall c :: c in allowed ==> !CanPreempt(spec, active, cores, p, c) {
      forall q | q in all
        ensures q in spec && CountOn(cores, q) <= spec[q].guaranteed
      {
        if q != p {
          RefusedMeansModest(spec, active, cores, p, q);
        }
      }
      SumsCompare(spec, cores, all, p);
      SumCountIsOccupied(cores, |cores|, all);
      OccupiedCovers(cores, |cores|, allowed);
      assert false;
    }
  }

  // --------------------------------------------------------------- moving one core

  /** ias_cleanup_core: uncharge whoever has the core. */
  function Cleaned(active: Active, cores: Cores, core: nat): (r: Active)
    requires core < |cores|
    ensures r.Keys == active.Keys
  {
    match cores[core]
    case Some(q) => if q in active then active[q := active[q] - 1] else active
    case None => active
  }

  /** threads_active after the core is taken from whoever had it and charged to p. */
  function Granted(active: Active, cores: Cores, p: Pid, core: nat): (r: Active)
    requires p in active && core < |cores|
    ensures r.Keys == active.Keys
  {
    var a := Cleaned(active, cores, core);
    a[p := a[p] + 1]
  }

  lemma CleanedBooks(active: Active, cores: Cores, core: nat, allowed: set<nat>)
    requires Books(active, cores, allowed) && core < |cores|
    ensures Books(Cleaned(active, cores, core), cores[core := None], allowed)
    ensures forall p :: p in active ==> 0 <= Cleaned(active, cores, core)[p] <= active[p]
  {
    var active' := Cleaned(active, cores, core);
    forall p | p in active'
      ensures active'[p] == CountOn(cores[core := None], p)
    {
      CountUpdate(cores, core, None, p);
    }
  }

  /** A grant keeps the books. */
  lemma GrantedBooks(active: Active, cores: Cores, allowed: set<nat>, p: Pid, core: nat)
    requires Books(active, cores, allowed) && p in active && core < |cores| && core in allowed
    ensures Books(Granted(active, cores, p, core), cores[core := Some(p)], allowed)
  {
    var active' := Granted(active, cores, p, core);
    forall q | q in active'
      ensures active'[q] == CountOn(cores[core := Some(p)], q)
    {
      CountUpdate(cores, core, Some(p), q);
    }
  }

  // -------------------------------------------------------- preemption comes to rest

  /** The square of x, by steps of one. */
  ghost function Square(x: int): nat
    decreases if x < 0 then -x else x
  {
    if x == 0 then 0 else if x > 0 then Square(x - 1) + 2 * x - 1 else Square(x + 1) - 2 * x - 1
  }

  lemma {:induction false} SquareIsProduct(x: int)
    ensures Square(x) == x * x
    decreases if x < 0 then -x else x
  {
    if x > 0 {
      SquareIsProduct(x - 1);
    } else if x < 0 {
      SquareIsProduct(x + 1);
    }
  }

  lemma {:induction false} SquareMonotone(x: int, b: int)
    requires -b <= x <= b
    ensures Square(x) <= Square(b)
    decreases b
  {
    if x == b || x == -b {
      SquareEven(b);
    } else {
      SquareMonotone(x, b - 1);
    }
  }

  lemma {:induction false} SquareEven(b: int)
    requires b >= 0
    ensures Square(-b) == Square(b)
    decreases b
  {
    if b > 0 {
      SquareEven(b - 1);
    }
  }

  ghost function Squares(spec: Specs, active: Active, all: seq<Pid>): nat {
    if all == [] then 0 else Square(Burst(spec, active, all[0])) + Squares(spec, active, all[1..])
  }

  /** The sum of the squared differences between active and guaranteed cores. */
  ghost function SumOfSquares(spec: Specs, active: Active, all: seq<Pid>): int {
    if all == [] then 0
    else Burst(spec, active, all[0]) * Burst(spec, active, all[0]) + SumOfSquares(spec, active, all[1..])
  }

  lemma {:induction false} SquaresAreSummed(spec: Specs, active: Active, all: seq<Pid>)
    ensures Squares(spec, active, all) == SumOfSquares(spec, active, all)
    decreases |all|
  {
    if all != [] {
      SquareIsProduct(Burst(spec, active, all[0]));
      SquaresAreSummed(spec, active, all[1..]);
    }
  }

  ghost predicate IsBestEffort(spec: Specs, o: Option<Pid>) {
    o.Some? && o.value in spec && !spec[o.value].isLc
  }

  /** The cores mapped to best-effort processes. */
  ghost function BestEffort(spec: Specs, cores: Cores): (n: nat)
    ensures n <= |cores|
  {
    if cores == [] then 0
    else BestEffort(spec, cores[..|cores| - 1]) + if IsBestEffort(spec, cores[|cores| - 1]) then 1 else 0
  }

  ghost predicate Lexicographic(a: (nat, nat, nat), b: (nat, nat, nat)) {
    || a.0 < b.0
    || (a.0 == b.0 && a.1 < b.1)
    || (a.0 == b.0 && a.1 == b.1 && a.2 < b.2)
  }

  /** Idle cores, best-effort cores, and how unevenly the burst cores are spread. */
  ghost function Unrest(spec: Specs, active: Active, cores: Cores, all: seq<Pid>): (m: (nat, nat, nat)) {
    (|cores| - Occupied(cores), BestEffort(spec, cores), Squares(spec, active, all))
  }

  lemma {:induction false} OccupiedUpdate(cores: Cores, n: nat, c: nat, o: Option<Pid>)
    requires c < |cores| && n <= |cores|
    ensures OccupiedBelow(cores[c := o], n)
            == OccupiedBelow(cores, n)
               + if c < n then (if o.Some? then 1 else 0) - (if cores[c].Some? then 1 else 0) else 0
    decreases n
  {
    if n > 0 {
      OccupiedUpdate(cores, n - 1, c, o);
    }
  }

  lemma {:induction false} BestEffortUpdate(spec: Specs, cores: Cores, c: nat, o: Option<Pid>)
    requires c < |cores|
    ensures BestEffort(spec, cores[c := o])
            == BestEffort(spec, cores) - (if IsBestEffort(spec, cores[c]) then 1 else 0)
               + (if IsBestEffort(spec, o) then 1 else 0)
    decreases |cores|
  {
    var n := |cores| - 1;
    if c < n {
      BestEffortUpdate(spec, cores[..n], c, o);
      assert cores[c := o][..n] == cores[..n][c := o];
    } else {
      assert cores[c := o][..n] == cores[..n];
    }
  }

  lemma {:induction false} SquaresUpdate(spec: Specs, active: Active, all: seq<Pid>, q: Pid, v: int)
    requires Distinct(all) && q in spec && q in active
    ensures var b, b' := active[q] - spec[q].guaranteed, v - spec[q].guaranteed;
            Squares(spec, active[q := v], all)
            == Squares(spec, active, all) + if q in all then Square(b') - Square(b) else 0
    decreases |all|
  {
    if all != [] {
      SquaresUpdate(spec, active, all[1..], q, v);
      assert all == [all[0]] + all[1..];
    }
  }

  /** Evening out two bursts that differ by two or more lowers the sum of squares. */
  lemma EveningOut(p: int, q: int)
    requires q > p + 1
    ensures Square(q - 1) + Square(p + 1) < Square(q) + Square(p)
  {
  }

  lemma SquaresMove(spec: Specs, active: Active, all: seq<Pid>, p: Pid, q: Pid)
    requires Distinct(all) && p in all && q in all && p != q
    requires p in spec && p in active && q in spec && q in active
    requires Burst(spec, active, q) > Burst(spec, active, p) + 1
    ensures Squares(spec, active[q := active[q] - 1][p := active[p] + 1], all) < Squares(spec, active, all)
  {
    SquaresUpdate(spec, active, all, q, active[q] - 1);
    SquaresUpdate(spec, active[q := active[q] - 1], all, p, active[p] + 1);
    EveningOut(Burst(spec, active, p), Burst(spec, active, q));
  }

  /** Every grant strictly lowers (idle cores, best-effort cores, unevenness), read lexicographically. */
  lemma GrantReducesUnrest(spec: Specs, active: Active, cores: Cores, all: seq<Pid>, p: Pid, core: nat)
    requires active.Keys == spec.Keys && Distinct(all) && (forall q :: q in all <==> q in spec)
    requires p in spec && core < |cores|
    requires cores[core].Some? ==> cores[core].value in spec
    requires CanPreempt(spec, active, cores, p, core)
    ensures Lexicographic(Unrest(spec, Granted(active, cores, p, core), cores[core := Some(p)], all),
                          Unrest(spec, active, cores, all))
  {
    OccupiedUpdate(cores, |cores|, core, Some(p));
    BestEffortUpdate(spec, cores, core, Some(p));
    if cores[core].Some? && spec[cores[core].value].isLc == spec[p].isLc {
      SquaresMove(spec, active, all, p, cores[core].value);
    }
  }

  // ------------------------------------------------- how long a run of grants can be

  datatype Allocation = Allocation(active: Active, cores: Cores)

  ghost predicate GrantStep(spec: Specs, a: Allocation, a': Allocation, allowed: set<nat>, p: Pid, core: nat) {
    && a.active.Keys == spec.Keys && p in spec && core < |a.cores| && core in allowed
    && CanPreempt(spec, a.active, a.cores, p, core)
    && a' == Allocation(Granted(a.active, a.cores, p, core), a.cores[core := Some(p)])
  }

  ghost predicate GrantNext(spec: Specs, a: Allocation, a': Allocation, allowed: set<nat>) {
    exists p, core :: GrantStep(spec, a, a', allowed, p, core)
  }

  /** A sequence of grants with no core released in between. */
  ghost predicate GrantRun(spec: Specs, run: seq<Allocation>, allowed: set<nat>) {
    forall i :: 0 <= i < |run| - 1 ==> GrantNext(spec, run[i], run[i + 1], allowed)
  }

  /** No burst exceeds the machine or undercuts the guarantee by more than all of it. */
  ghost function SquaresBound(spec: Specs, all: seq<Pid>, ncores: nat): nat {
    if all == [] then 0
    else Square(ncores + if all[0] in spec then spec[all[0]].guaranteed else 0) + SquaresBound(spec, all[1..], ncores)
  }

  lemma {:induction false} SquaresBounded(spec: Specs, active: Active, cores: Cores, all: seq<Pid>, allowed: set<nat>)
    requires Books(active, cores, allowed) && forall p :: p in all ==> p in spec && p in active
    ensures Squares(spec, active, all) <= SquaresBound(spec, all, |cores|)
    decreases |all|
  {
    if all != [] {
      SquaresBounded(spec, active, cores, all[1..], allowed);
      SquareMonotone(Burst(spec, active, all[0]), |cores| + spec[all[0]].guaranteed);
    }
  }

  ghost function Rank(m: (nat, nat, nat), b: nat, s: nat): nat {
    (m.0 * (b + 1) + m.1) * (s + 1) + m.2
  }

  lemma MulStep(x: nat, y: nat, k: nat)
    requires x < y
    ensures x * k + k <= y * k
  {
    assert x * k + k == (x + 1) * k;
  }

  lemma RankDecreases(a: (nat, nat, nat), m: (nat, nat, nat), b: nat, s: nat)
    requires Lexicographic(a, m) && a.1 <= b && a.2 <= s
    ensures Rank(a, b, s) < Rank(m, b, s)
  {
    var x, y := a.0 * (b + 1) + a.1, m.0 * (b + 1) + m.1;
    if a.0 < m.0 {
      MulStep(a.0, m.0, b + 1);
      assert x < y;
    }
    if x < y {
      MulStep(x, y, s + 1);
    }
  }

  ghost function RankOf(spec: Specs, a: Allocation, all: seq<Pid>): nat {
    Rank(Unrest(spec, a.active, a.cores, all), |a.cores|, SquaresBound(spec, all, |a.cores|))
  }

  lemma GrantLowersRank(spec: Specs, a: Allocation, a': Allocation, all: seq<Pid>, allowed: set<nat>)
    requires GrantNext(spec, a, a', allowed) && Books(a.active, a.cores, allowed)
    requires Distinct(all) && (forall q :: q in all <==> q in spec)
    ensures a.active.Keys == a'.active.Keys == spec.Keys
    ensures Books(a'.active, a'.cores, allowed)
    ensures RankOf(spec, a', all) < RankOf(spec, a, all)
  {
    var p, core :| GrantStep(spec, a, a', allowed, p, core);
    GrantedBooks(a.active, a.cores, allowed, p, core);
    GrantReducesUnrest(spec, a.active, a.cores, all, p, core);
    SquaresBounded(spec, a'.active, a'.cores, all, allowed);
    RankDecreases(Unrest(spec, a'.active, a'.cores, all), Unrest(spec, a.active, a.cores, all), |a.cores|,
                  SquaresBound(spec, all, |a.cores|));
  }

  /** Preemption cannot ping-pong: a run of grants is no longer than the rank of the state it starts in. */
  lemma {:induction false} GrantRunsAreFinite(spec: Specs, run: seq<Allocation>, all: seq<Pid>, allowed: set<nat>)
    requires run != [] && GrantRun(spec, run, allowed) && Books(run[0].active, run[0].cores, allowed)
    requires run[0].active.Keys == spec.Keys && Distinct(all) && (forall q :: q in all <==> q in spec)
    ensures |run| <= 1 + RankOf(spec, run[0], all)
    decreases |run|
  {
    if |run| > 1 {
      var rest := run[1..];
      assert GrantNext(spec, run[0], run[1], allowed);
      GrantLowersRank(spec, run[0], run[1], all, allowed);
      forall i | 0 <= i < |rest| - 1
        ensures GrantNext(spec, rest[i], rest[i + 1], allowed)
      {
        assert GrantNext(spec, run[i + 1], run[i + 2], allowed);
      }
      GrantRunsAreFinite(spec, rest, all, allowed);
    }
  }
}
