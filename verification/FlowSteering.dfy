/**
 Steering flows to active kthreads: the iokernel's table and the runtime's own version
 of it, both against one specification.
 */
module FlowSteering {
  import opened ListSets

  const UINT_MAX := 0xFFFF_FFFF

  /** The inactive slots below n that are steered to t. */
  function ExtraBelow(tbl: seq<nat>, active: set<nat>, n: nat, t: nat): nat
    requires n <= |tbl|
  {
    if n == 0 then 0
    else ExtraBelow(tbl, active, n - 1, t) + if n - 1 !in active && tbl[n - 1] == t then 1 else 0
  }

  lemma {:induction false} ExtraFrame(tbl: seq<nat>, tbl': seq<nat>, active: set<nat>, n: nat, t: nat)
    requires n <= |tbl| && n <= |tbl'| && forall i :: 0 <= i < n ==> tbl[i] == tbl'[i]
    ensures ExtraBelow(tbl, active, n, t) == ExtraBelow(tbl', active, n, t)
    decreases n
  {
    if n > 0 {
      ExtraFrame(tbl, tbl', active, n - 1, t);
    }
  }

  /** Active threads keep their own slot, and the slots of the others are dealt out evenly among the active ones. */
  ghost predicate Steered(tbl: seq<nat>, active: set<nat>) {
    && (forall i :: 0 <= i < |tbl| ==> if i in active then tbl[i] == i else tbl[i] in active)
    && (forall t, u :: t in active && u in active ==>
          ExtraBelow(tbl, active, |tbl|, t) <= ExtraBelow(tbl, active, |tbl|, u) + 1)
  }

  /** After some rounds and a part of one, each active thread has one slot per round, and the first few one more. */
  ghost predicate Dealt(tbl: seq<nat>, active: set<nat>, act: seq<nat>, n: nat, round: nat, pos: nat) {
    && n <= |tbl| && pos < |act|
    && (forall i :: 0 <= i < n && i !in active ==> tbl[i] in active)
    && (forall a :: 0 <= a < |act| ==> ExtraBelow(tbl, active, n, act[a]) == round + if a < pos then 1 else 0)
  }

  /** Every active thread has its own slot. */
  ghost predicate OwnSlots(tbl: seq<nat>, active: set<nat>) {
    forall i :: 0 <= i < |tbl| && i in active ==> tbl[i] == i
  }

  /** The active threads' own slots are filled, and the rest is unset from n on. */
  ghost predicate Prepared(tbl: seq<nat>, active: set<nat>, n: nat) {
    OwnSlots(tbl, active) && forall i :: n <= i < |tbl| && i !in active ==> tbl[i] == UINT_MAX
  }

  /** An active slot costs nobody anything. */
  lemma DealtSkip(tbl: seq<nat>, active: set<nat>, act: seq<nat>, n: nat, round: nat, pos: nat)
    requires Dealt(tbl, active, act, n, round, pos) && n < |tbl| && n in active
    ensures Dealt(tbl, active, act, n + 1, round, pos)
  {
  }

  /** The next inactive slot goes to the next active thread. */
  lemma DealtStep(tbl: seq<nat>, active: set<nat>, act: seq<nat>, n: nat, round: nat, pos: nat)
    requires Dealt(tbl, active, act, n, round, pos) && n < |tbl| && n !in active && Lists(active, act)
    ensures var tbl' := tbl[n := act[pos]];
            if pos + 1 == |act| then Dealt(tbl', active, act, n + 1, round + 1, 0)
            else Dealt(tbl', active, act, n + 1, round, pos + 1)
  {
    var tbl' := tbl[n := act[pos]];
    ListsAt(active, act, pos);
    ListsMeans(active, act);
    forall a | 0 <= a < |act|
      ensures ExtraBelow(tbl', active, n + 1, act[a]) == ExtraBelow(tbl, active, n, act[a]) + if a == pos then 1 else 0
    {
      ExtraFrame(tbl, tbl', active, n, act[a]);
      DistinctFrom(act, a);
      DistinctFrom(act, pos);
    }
  }

  lemma DealtStart(tbl: seq<nat>, active: set<nat>, act: seq<nat>)
    requires act != []
    ensures Dealt(tbl, active, act, 0, 0, 0)
  {
  }

  lemma DealtIsSteered(tbl: seq<nat>, active: set<nat>, act: seq<nat>, round: nat, pos: nat)
    requires Dealt(tbl, active, act, |tbl|, round, pos) && OwnSlots(tbl, active) && Lists(active, act)
    ensures Steered(tbl, active)
  {
    ListsMeans(active, act);
    forall t, u | t in active && u in active
      ensures ExtraBelow(tbl, active, |tbl|, t) <= ExtraBelow(tbl, active, |tbl|, u) + 1
    {
      var a :| 0 <= a < |act| && act[a] == t;
      var b :| 0 <= b < |act| && act[b] == u;
    }
  }

  lemma MulAtLeast(d: int, m: int)
    requires d >= 1 && m >= 0
    ensures d * m >= m
  {
    assert d * m == (d - 1) * m + m;
  }

  lemma PositionInRound(j: nat, m: nat, round: nat, pos: nat)
    requires 0 < m && pos < m && j == round * m + pos
    ensures j % m == pos
  {
    var q, r := j / m, j % m;
    assert j == q * m + r;
    assert (q - round) * m == pos - r;
    assert (round - q) * m == r - pos;
    if q > round {
      MulAtLeast(q - round, m);
    }
    if round > q {
      MulAtLeast(round - q, m);
    }
  }

  lemma NextInRound(m: nat, round: nat, pos: nat)
    requires pos + 1 == m
    ensures round * m + pos + 1 == (round + 1) * m
  {
  }

  /** sched_steer_flows: the table is left alone while no thread is active. */
  method SteerFlows(tbl: array<nat>, act: seq<nat>, ghost active: set<nat>)
    requires Lists(active, act) && tbl.Length < UINT_MAX && forall t :: t in active ==> t < tbl.Length
    modifies tbl
    ensures if act == [] then tbl[..] == old(tbl[..]) else Steered(tbl[..], active)
  {
    if |act| == 0 {
      return;
    }
    for i := 0 to tbl.Length
      invariant forall k :: 0 <= k < i ==> tbl[k] == UINT_MAX
    {
      tbl[i] := UINT_MAX;
    }
    ListsMeans(active, act);
    for i := 0 to |act|
      invariant forall k :: 0 <= k < tbl.Length ==> tbl[k] == k || tbl[k] == UINT_MAX
      invariant forall k :: 0 <= k < tbl.Length && k !in active ==> tbl[k] == UINT_MAX
      invariant forall a :: 0 <= a < i ==> act[a] < tbl.Length && tbl[act[a]] == act[a]
    {
      assert act[i] in active;
      tbl[act[i]] := act[i];
    }
    FillRoundRobin(tbl, act, active);
  }

  /** The last loop of sched_steer_flows. */
  method FillRoundRobin(tbl: array<nat>, act: seq<nat>, ghost active: set<nat>)
    requires Lists(active, act) && act != [] && tbl.Length < UINT_MAX && Prepared(tbl[..], active, 0)
    requires forall t :: t in active ==> t < tbl.Length
    modifies tbl
    ensures Steered(tbl[..], active)
  {
    var j := 0;
    ghost var round, pos := 0, 0;
    DealtStart(tbl[..], active, act);
    for i := 0 to tbl.Length
      invariant Prepared(tbl[..], active, i) && Dealt(tbl[..], active, act, i, round, pos)
      invariant j == round * |act| + pos
    {
      assert tbl[..][i] == tbl[i];
      if tbl[i] != UINT_MAX {
        DealtSkip(tbl[..], active, act, i, round, pos);
        continue;
      }
      PositionInRound(j, |act|, round, pos);
      DealtStep(tbl[..], active, act, i, round, pos);
      ghost var was := tbl[..];
      tbl[i] := act[j % |act|];
      assert tbl[..] == was[i := act[pos]];
      j := j + 1;
      if pos + 1 == |act| {
        NextInRound(|act|, round, pos);
        round, pos := round + 1, 0;
      } else {
        pos := pos + 1;
      }
    }
    DealtIsSteered(tbl[..], active, act, round, pos);
  }

  /** The steering part of flows_update in the runtime: the same table, from a bitmap of awake kthreads. */
  method FlowsUpdate(awake: set<nat>, maxks: nat) returns (steered: bool, fgMap: array<nat>)
    requires forall t :: t in awake ==> t < maxks
    ensures fgMap.Length == maxks && fresh(fgMap)
    ensures steered <==> awake != {}
    ensures steered ==> Steered(fgMap[..], awake)
  {
    fgMap := new nat[maxks];
    var awakeks: seq<nat> := [];
    ghost var seen: set<nat> := {};
    for i := 0 to maxks
      invariant Lists(seen, awakeks) && forall t :: t in seen <==> t in awake && t < i
      invariant forall k :: 0 <= k < i && k in awake ==> fgMap[k] == k
    {
      if i in awake {
        fgMap[i] := i;
        ListsSnoc(seen, awakeks, i);
        awakeks := awakeks + [i];
        seen := seen + {i};
      }
    }
    assert seen == awake;
    steered := |awakeks| != 0;
    if steered {
      FillCleared(fgMap, awakeks, awake);
    }
  }

  /** The last loop of flows_update; the slots of sleeping kthreads hold anything before it. */
  method FillCleared(fgMap: array<nat>, awakeks: seq<nat>, awake: set<nat>)
    requires Lists(awake, awakeks) && awakeks != [] && OwnSlots(fgMap[..], awake)
    modifies fgMap
    ensures Steered(fgMap[..], awake)
  {
    var pos := 0;
    ghost var round := 0;
    DealtStart(fgMap[..], awake, awakeks);
    for i := 0 to fgMap.Length
      invariant OwnSlots(fgMap[..], awake) && Dealt(fgMap[..], awake, awakeks, i, round, pos)
    {
      if i in awake {
        DealtSkip(fgMap[..], awake, awakeks, i, round, pos);
        continue;
      }
      DealtStep(fgMap[..], awake, awakeks, i, round, pos);
      ghost var was := fgMap[..];
      fgMap[i] := awakeks[pos];
      assert fgMap[..] == was[i := awakeks[pos]];
      pos := pos + 1;
      if pos == |awakeks| {
        pos := 0;
        round := round + 1;
      }
    }
    DealtIsSteered(fgMap[..], awake, awakeks, round, pos);
  }
}
