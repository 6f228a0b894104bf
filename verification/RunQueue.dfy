/**
 The per-kthread run queue: a 32-slot ring indexed by wrapping 32-bit counters
 that spills into an overflow list, and the work-stealing merge of two of them.
 */
module RunQueue {
  import opened Words

  const RQ_SIZE: int := 32

  /** A queued uthread and the time stamp it is ordered by. */
  datatype Uthread = Uthread(id: nat, readyTsc: nat)

  // ---------------------------------------------------------------- the ring

  /** The ring slot a counter names. */
  function Slot(x: U32): (k: nat)
    ensures k < RQ_SIZE
  {
    if x < 32 then x else Slot(x - 32)
  }

  lemma {:induction false} SlotIsMod(x: U32)
    ensures Slot(x) == x % 32
  {
    if x >= 32 {
      SlotIsMod(x - 32);
    }
  }

  /** The n oldest entries of a ring whose oldest entry is at index `tail`. */
  ghost function RingOf(slots: seq<Uthread>, tail: U32, n: nat): (r: seq<Uthread>)
    requires |slots| == RQ_SIZE
    ensures |r| == n
    decreases n
  {
    if n == 0 then [] else [slots[Slot(tail)]] + RingOf(slots, Add32(tail, 1), n - 1)
  }

  /** Slots of one window of at most 32 consecutive indices, counters wrapping, are distinct. */
  lemma SlotsDistinct(tail: U32, i: nat, j: nat)
    requires i < j < WORD
    ensures j - i < RQ_SIZE ==> Slot(Add32(tail, i)) != Slot(Add32(tail, j))
    ensures j - i == RQ_SIZE ==> Slot(Add32(tail, i)) == Slot(Add32(tail, j))
  {
    SlotIsMod(Add32(tail, i));
    SlotIsMod(Add32(tail, j));
  }

  /** Writing the slot just past the window leaves the window alone. */
  lemma {:induction false} RingFrame(slots: seq<Uthread>, tail: U32, n: nat, k: U32, th: Uthread)
    requires |slots| == RQ_SIZE && n <= k < RQ_SIZE
    ensures RingOf(slots[Slot(Add32(tail, k)) := th], tail, n) == RingOf(slots, tail, n)
    decreases n
  {
    if n > 0 {
      SlotsDistinct(tail, 0, k);
      assert Add32(Add32(tail, 1), k - 1) == Add32(tail, k);
      RingFrame(slots, Add32(tail, 1), n - 1, k - 1, th);
    }
  }

  lemma {:induction false} RingSnoc(slots: seq<Uthread>, tail: U32, n: U32)
    requires |slots| == RQ_SIZE && n < RQ_SIZE
    ensures RingOf(slots, tail, n + 1) == RingOf(slots, tail, n) + [slots[Slot(Add32(tail, n))]]
    decreases n
  {
    if n > 0 {
      RingSnoc(slots, Add32(tail, 1), n - 1);
      assert Add32(Add32(tail, 1), n - 1) == Add32(tail, n);
    }
  }

  lemma RingPushBack(slots: seq<Uthread>, tail: U32, n: U32, th: Uthread)
    requires |slots| == RQ_SIZE && n < RQ_SIZE
    ensures RingOf(slots[Slot(Add32(tail, n)) := th], tail, n + 1) == RingOf(slots, tail, n) + [th]
  {
    RingFrame(slots, tail, n, n, th);
    RingSnoc(slots[Slot(Add32(tail, n)) := th], tail, n);
  }

  /** Stepping the tail back prepends; over a full ring it overwrites exactly the youngest entry. */
  lemma RingPushFront(slots: seq<Uthread>, tail: U32, n: U32, th: Uthread)
    requires |slots| == RQ_SIZE && n <= RQ_SIZE
    ensures var t := Sub32(tail, 1);
            var keep := if n < RQ_SIZE then n else n - 1;
            RingOf(slots[Slot(t) := th], t, keep + 1) == [th] + RingOf(slots, tail, keep)
    ensures n == RQ_SIZE ==>
              RingOf(slots, tail, n) == RingOf(slots, tail, n - 1) + [slots[Slot(Sub32(tail, 1))]]
  {
    var t := Sub32(tail, 1);
    var keep := if n < RQ_SIZE then n else n - 1;
    assert Add32(t, 1) == tail;
    SlotsDistinct(t, 0, RQ_SIZE);
    assert Add32(t, RQ_SIZE) == Add32(tail, RQ_SIZE - 1);
    RingFrame(slots, tail, keep, RQ_SIZE - 1, th);
    if n == RQ_SIZE {
      RingSnoc(slots, tail, n - 1);
    }
  }

  /** A queue is its oldest thread followed by the rest, wherever the oldest thread lives. */
  lemma TakeFromRing(slots: seq<Uthread>, tail: U32, n: nat, overflow: seq<Uthread>)
    requires |slots| == RQ_SIZE && n > 0
    ensures RingOf(slots, tail, n) + overflow
            == [slots[Slot(tail)]] + (RingOf(slots, Add32(tail, 1), n - 1) + overflow)
  {
  }

  lemma TakeFromOverflow(slots: seq<Uthread>, tail: U32, overflow: seq<Uthread>)
    requires |slots| == RQ_SIZE && overflow != []
    ensures RingOf(slots, tail, 0) + overflow == [overflow[0]] + (RingOf(slots, tail, 0) + overflow[1..])
  {
  }

  lemma MoveOne(done: seq<Uthread>, th: Uthread, todo: seq<Uthread>)
    ensures done + ([th] + todo) == (done + [th]) + todo
  {
  }

  lemma SnocAssoc(ring: seq<Uthread>, overflow: seq<Uthread>, th: Uthread)
    ensures ring + (overflow + [th]) == (ring + overflow) + [th]
    ensures (ring + [th]) + [] == (ring + []) + [th]
  {
  }

  lemma TookFromRing(q: seq<Uthread>, l: seq<Uthread>, slots: seq<Uthread>, tail: U32, n: nat, overflow: seq<Uthread>)
    requires |slots| == RQ_SIZE && n > 0 && q == l + (RingOf(slots, tail, n) + overflow)
    ensures q == (l + [slots[Slot(tail)]]) + (RingOf(slots, Add32(tail, 1), n - 1) + overflow)
  {
    TakeFromRing(slots, tail, n, overflow);
    MoveOne(l, slots[Slot(tail)], RingOf(slots, Add32(tail, 1), n - 1) + overflow);
  }

  lemma TookFromOverflow(q: seq<Uthread>, l: seq<Uthread>, slots: seq<Uthread>, tail: U32, overflow: seq<Uthread>)
    requires |slots| == RQ_SIZE && overflow != [] && q == l + (RingOf(slots, tail, 0) + overflow)
    ensures q == (l + [overflow[0]]) + (RingOf(slots, tail, 0) + overflow[1..])
  {
    TakeFromOverflow(slots, tail, overflow);
    MoveOne(l, overflow[0], RingOf(slots, tail, 0) + overflow[1..]);
  }

  /** One step of the overflow drain leaves the queue as it is. */
  lemma DrainStep(slots: seq<Uthread>, tail: U32, n: U32, overflow: seq<Uthread>)
    requires |slots| == RQ_SIZE && n < RQ_SIZE && overflow != []
    ensures RingOf(slots[Slot(Add32(tail, n)) := overflow[0]], tail, n + 1) + overflow[1..]
            == RingOf(slots, tail, n) + overflow
  {
    RingPushBack(slots, tail, n, overflow[0]);
    MoveOne(RingOf(slots, tail, n), overflow[0], overflow[1..]);
    assert overflow == [overflow[0]] + overflow[1..];
  }

  /** A head push prepends, whether or not the ring has to spill its youngest entry. */
  lemma HeadPushStep(slots: seq<Uthread>, tail: U32, n: U32, overflow: seq<Uthread>, th: Uthread)
    requires |slots| == RQ_SIZE && n <= RQ_SIZE
    ensures var t := Sub32(tail, 1);
            [th] + (RingOf(slots, tail, n) + overflow)
            == if n < RQ_SIZE then RingOf(slots[Slot(t) := th], t, n + 1) + overflow
               else RingOf(slots[Slot(t) := th], t, n) + ([slots[Slot(t)]] + overflow)
  {
    RingPushFront(slots, tail, n, th);
    if n == RQ_SIZE {
      MoveOne(RingOf(slots, tail, n - 1), slots[Slot(Sub32(tail, 1))], overflow);
    }
  }

  // ------------------------------------------------------- specification level

  ghost predicate Sorted(q: seq<Uthread>) {
    forall i, j :: 0 <= i < j < |q| ==> q[i].readyTsc <= q[j].readyTsc
  }

  /** The merge of two queues by ready time; ties go to the left queue. */
  ghost function Merge(l: seq<Uthread>, r: seq<Uthread>): (m: seq<Uthread>)
    decreases |l| + |r|
  {
    if r != [] && (l == [] || r[0].readyTsc < l[0].readyTsc) then [r[0]] + Merge(l, r[1..])
    else if l != [] then [l[0]] + Merge(l[1..], r)
    else []
  }

  /** m interleaves l and r: both keep their own order and nothing is added or dropped. */
  ghost predicate Interleaves(m: seq<Uthread>, l: seq<Uthread>, r: seq<Uthread>)
    decreases |m|
  {
    if m == [] then l == [] && r == []
    else (l != [] && l[0] == m[0] && Interleaves(m[1..], l[1..], r))
         || (r != [] && r[0] == m[0] && Interleaves(m[1..], l, r[1..]))
  }

  /** Stepping the tail back makes the window one longer, and stepping the head back as well undoes that. */
  lemma HeadPushWindow(head: U32, tail: U32)
    requires Sub32(head, tail) <= RQ_SIZE
    ensures Sub32(head, Sub32(tail, 1)) == Sub32(head, tail) + 1
    ensures Sub32(Sub32(head, 1), Sub32(tail, 1)) == Sub32(head, tail)
  {
  }

  lemma {:induction false} MergeInterleaves(l: seq<Uthread>, r: seq<Uthread>)
    ensures Interleaves(Merge(l, r), l, r)
    decreases |l| + |r|
  {
    var m := Merge(l, r);
    if r != [] && (l == [] || r[0].readyTsc < l[0].readyTsc) {
      MergeInterleaves(l, r[1..]);
      assert m[1..] == Merge(l, r[1..]);
    } else if l != [] {
      MergeInterleaves(l[1..], r);
      assert m[1..] == Merge(l[1..], r);
    }
  }

  /** An interleaving keeps every thread of both queues, with its multiplicity. */
  lemma {:induction false} InterleavesConserves(m: seq<Uthread>, l: seq<Uthread>, r: seq<Uthread>)
    requires Interleaves(m, l, r)
    ensures multiset(m) == multiset(l) + multiset(r)
    ensures |m| == |l| + |r|
    decreases |m|
  {
    if m != [] {
      assert m == [m[0]] + m[1..];
      if l != [] && l[0] == m[0] && Interleaves(m[1..], l[1..], r) {
        assert l == [l[0]] + l[1..];
        InterleavesConserves(m[1..], l[1..], r);
      } else {
        assert r == [r[0]] + r[1..];
        InterleavesConserves(m[1..], l, r[1..]);
      }
    }
  }

  lemma {:induction false} MergeSorted(l: seq<Uthread>, r: seq<Uthread>)
    requires Sorted(l) && Sorted(r)
    ensures Sorted(Merge(l, r))
    decreases |l| + |r|
  {
    if r != [] && (l == [] || r[0].readyTsc < l[0].readyTsc) {
      MergeSorted(l, r[1..]);
      MergeLowerBound(l, r[1..], r[0].readyTsc);
    } else if l != [] {
      MergeSorted(l[1..], r);
      MergeLowerBound(l[1..], r, l[0].readyTsc);
    }
  }

  lemma {:induction false} MergeLowerBound(l: seq<Uthread>, r: seq<Uthread>, b: nat)
    requires forall i :: 0 <= i < |l| ==> b <= l[i].readyTsc
    requires forall i :: 0 <= i < |r| ==> b <= r[i].readyTsc
    ensures forall i :: 0 <= i < |Merge(l, r)| ==> b <= Merge(l, r)[i].readyTsc
    decreases |l| + |r|
  {
    if r != [] && (l == [] || r[0].readyTsc < l[0].readyTsc) {
      MergeLowerBound(l, r[1..], b);
    } else if l != [] {
      MergeLowerBound(l[1..], r, b);
    }
  }

  /** How many threads a thief of length lsize takes from a victim of length rsize. */
  function StealCount(lsize: U32, rsize: U32): (n: nat)
  {
    if lsize < rsize then
      var half := (rsize - lsize + 1) / 2;
      if half < RQ_SIZE then half else RQ_SIZE
    else 0
  }

  /**
   What one steal does to a pair of queues: the oldest threads move, nothing is
   lost or duplicated, and the thief never overshoots the victim by more than one.
   */
  lemma MergeCounts(qHead: U32, qTail: U32, l: seq<Uthread>, r: seq<Uthread>)
    requires Sub32(qHead, qTail) == Wrap32(|l|) && |r| < WORD
    ensures Sub32(Add32(qHead, |r|), qTail) == Wrap32(|Merge(l, r)|)
  {
    MergeInterleaves(l, r);
    InterleavesConserves(Merge(l, r), l, r);
    CounterPush(qHead, qTail, |l|, |r|);
  }

  lemma StealBalances(l: seq<Uthread>, r: seq<Uthread>)
    requires |l| < WORD && |r| < WORD
    ensures var n := StealCount(|l|, |r|);
            && n <= |r|
            && (n == 0 <==> |r| <= |l|)
            && var l', r' := Merge(l, r[..n]), r[n..];
               && multiset(l') + multiset(r') == multiset(l) + multiset(r)
               && (n > 0 ==> |l'| <= |r'| + 1)
               && (n < RQ_SIZE && |l| < |r| ==> |r'| <= |l'|)
  {
    var n := StealCount(|l|, |r|);
    var taken := r[..n];
    assert r == taken + r[n..];
    MergeInterleaves(l, taken);
    InterleavesConserves(Merge(l, taken), l, taken);
  }

  /** Ready-time order survives a steal between two queues that have it. */
  lemma StealKeepsOrder(l: seq<Uthread>, r: seq<Uthread>)
    requires |l| < WORD && |r| < WORD && Sorted(l) && Sorted(r)
    ensures var n := StealCount(|l|, |r|);
            n <= |r| && Sorted(Merge(l, r[..n])) && Sorted(r[n..])
  {
    MergeSorted(l, r[..StealCount(|l|, |r|)]);
  }

  /** The time stamp a head push gives its thread: that of the oldest ring entry, if any. */
  function HeadStamp(ring: seq<Uthread>, now: nat): (tsc: nat) {
    if ring == [] then now else ring[0].readyTsc
  }

  lemma PrependSorted(th: Uthread, q: seq<Uthread>)
    requires Sorted(q)
    ensures Sorted([th] + q) <==> (q == [] || th.readyTsc <= q[0].readyTsc)
  {
    var p := [th] + q;
    assert forall i :: 0 <= i < |q| ==> p[i + 1] == q[i];
    if q != [] && th.readyTsc <= q[0].readyTsc {
      forall i, j | 0 <= i < j < |p|
        ensures p[i].readyTsc <= p[j].readyTsc
      {
        assert p[j] == q[j - 1];
        if i > 0 {
          assert p[i] == q[i - 1];
        }
      }
    } else if q != [] {
      assert p[1] == q[0] && p[0] == th;
    }
  }

  /**
   A head push keeps a sorted queue sorted exactly when it does not meet an empty
   ring in front of an overflow list that holds an older thread.
   */
  lemma HeadPushSorted(ring: seq<Uthread>, overflow: seq<Uthread>, id: nat, now: nat)
    requires Sorted(ring + overflow)
    ensures Sorted([Uthread(id, HeadStamp(ring, now))] + (ring + overflow))
            <==> (ring == [] && overflow != [] ==> now <= overflow[0].readyTsc)
  {
    var q := ring + overflow;
    var h := HeadStamp(ring, now);
    PrependSorted(Uthread(id, h), q);
    if q != [] {
      assert q[0] == if ring == [] then overflow[0] else ring[0];
    }
  }

  /** A head push in front of an overflow list that outlived its ring breaks the order. */
  lemma HeadPushCanUnsort()
    ensures var ring: seq<Uthread>, overflow := [], [Uthread(1, 5)];
            Sorted(ring + overflow) && !Sorted([Uthread(2, HeadStamp(ring, 9))] + (ring + overflow))
  {
    var q := [Uthread(2, 9)] + ([] + [Uthread(1, 5)]);
    assert q[0].readyTsc > q[1].readyTsc;
  }

  // ------------------------------------------------------------- the kthread

  class Kthread {
    const rq: array<Uthread>
    var rqHead: U32
    var rqTail: U32
    var overflow: seq<Uthread>
    // the counters exported to the iokernel (struct q_ptrs)
    var qHead: U32
    var qTail: U32

    ghost predicate RingValid()
      reads this
    {
      rq.Length == RQ_SIZE && Sub32(rqHead, rqTail) <= RQ_SIZE
    }

    ghost function Ring(): (r: seq<Uthread>)
      reads this, rq
      requires RingValid()
    {
      RingOf(rq[..], rqTail, Sub32(rqHead, rqTail))
    }

    ghost function Contents(): (q: seq<Uthread>)
      reads this, rq
      requires RingValid()
    {
      Ring() + overflow
    }

    /** The ring is well formed and the exported counters show the queue's length. */
    ghost predicate Valid()
      reads this, rq
    {
      RingValid() && Sub32(qHead, qTail) == Wrap32(|Contents()|)
    }

    constructor ()
      ensures Valid() && Contents() == [] && fresh(rq)
    {
      rq := new Uthread[RQ_SIZE](_ => Uthread(0, 0));
      rqHead, rqTail, overflow, qHead, qTail := 0, 0, [], 0, 0;
    }

    /** Moves the first overflow thread into the ring. */
    method DrainOne()
      requires RingValid() && overflow != [] && Sub32(rqHead, rqTail) < RQ_SIZE
      modifies this`rqHead, this`overflow, rq
      ensures RingValid() && Contents() == old(Contents())
      ensures Sub32(rqHead, rqTail) == old(Sub32(rqHead, rqTail)) + 1
    {
      var th := overflow[0];
      DrainStep(rq[..], rqTail, Sub32(rqHead, rqTail), overflow);
      overflow := overflow[1..];
      rq[Slot(rqHead)] := th;
      rqHead := Add32(rqHead, 1);
    }

    /** Moves overflow threads into the ring while there is room. */
    method DrainOverflow()
      requires RingValid()
      modifies this`rqHead, this`overflow, rq
      ensures RingValid()
      ensures Contents() == old(Contents())
      ensures overflow == [] || Sub32(rqHead, rqTail) == RQ_SIZE
      ensures old(overflow) == [] ==> rqHead == old(rqHead)
    {
      while Sub32(rqHead, rqTail) < RQ_SIZE
        invariant RingValid()
        invariant Contents() == old(Contents())
        invariant old(overflow) == [] ==> rqHead == old(rqHead) && overflow == []
        decreases RQ_SIZE - Sub32(rqHead, rqTail)
      {
        if overflow == [] {
          break;
        }
        DrainOne();
      }
    }

    /** Appends to the ring, which must have room. */
    method RingAppend(th: Uthread)
      requires RingValid() && Sub32(rqHead, rqTail) < RQ_SIZE
      modifies this`rqHead, rq
      ensures RingValid()
      ensures Ring() == old(Ring()) + [th]
    {
      RingPushBack(rq[..], rqTail, Sub32(rqHead, rqTail), th);
      rq[Slot(rqHead)] := th;
      rqHead := Add32(rqHead, 1);
    }

    /** Appends at the end of a queue whose ring is full whenever it has overflowed. */
    method Append(th: Uthread)
      requires RingValid()
      requires overflow == [] || Sub32(rqHead, rqTail) == RQ_SIZE
      modifies this`rqHead, this`overflow, rq
      ensures RingValid()
      ensures Contents() == old(Contents()) + [th]
      ensures overflow == [] || Sub32(rqHead, rqTail) == RQ_SIZE
    {
      if Sub32(rqHead, rqTail) >= RQ_SIZE {
        overflow := overflow + [th];
      } else {
        RingAppend(th);
      }
    }

    /** Appends at the end, once the ring is as full as it can be. */
    method DrainAndAppend(th: Uthread)
      requires RingValid()
      modifies this`rqHead, this`overflow, rq
      ensures RingValid() && Contents() == old(Contents()) + [th]
    {
      if overflow != [] {
        DrainOverflow();
      }
      Append(th);
    }

    /** thread_ready_locked: makes a thread runnable at the tail, lock held. */
    method ReadyLocked(id: nat, now: nat)
      requires Valid()
      modifies this, rq
      ensures Valid()
      ensures Contents() == old(Contents()) + [Uthread(id, now)]
    {
      CounterPush(qHead, qTail, |Contents()|, 1);
      DrainAndAppend(Uthread(id, now));
      qHead := Add32(qHead, 1);
    }

    /** thread_ready: the same effect when no thief interferes (see ReadyRace for the lock-free steps). */
    method Ready(id: nat, now: nat)
      requires Valid()
      modifies this, rq
      ensures Valid()
      ensures Contents() == old(Contents()) + [Uthread(id, now)]
    {
      var th := Uthread(id, now);
      CounterPush(qHead, qTail, |Contents()|, 1);
      SnocAssoc(Ring(), overflow, th);
      if Sub32(rqHead, rqTail) >= RQ_SIZE || overflow != [] {
        assert Sub32(rqHead, rqTail) <= RQ_SIZE;
        overflow := overflow + [th];
        DrainOverflow();
        qHead := Add32(qHead, 1);
        return;
      }
      RingAppend(th);
      qHead := Add32(qHead, 1);
    }

    /** Steps the tail back over the ring, spilling the youngest entry when it is full. */
    method Prepend(th: Uthread)
      requires RingValid()
      modifies this`rqHead, this`rqTail, this`overflow, rq
      ensures RingValid()
      ensures Contents() == [th] + old(Contents())
    {
      ghost var slots, n := rq[..], Sub32(rqHead, rqTail);
      HeadPushStep(slots, rqTail, n, overflow, th);
      HeadPushWindow(rqHead, rqTail);
      rqTail := Sub32(rqTail, 1);
      var oldest := rq[Slot(rqTail)];
      rq[Slot(rqTail)] := th;
      assert rq[..] == slots[Slot(rqTail) := th];
      if Sub32(rqHead, rqTail) > RQ_SIZE {
        overflow := [oldest] + overflow;
        rqHead := Sub32(rqHead, 1);
      }
    }

    /** thread_ready_head and thread_ready_head_locked: makes a thread runnable at the head. */
    method ReadyHead(id: nat, now: nat)
      requires Valid()
      modifies this, rq
      ensures Valid()
      ensures Contents() == [Uthread(id, HeadStamp(old(Ring()), now))] + old(Contents())
    {
      CounterPush(qHead, qTail, |Contents()|, 1);
      var stamp := now;
      if rqHead != rqTail {
        stamp := rq[Slot(rqTail)].readyTsc;
      }
      Prepend(Uthread(id, stamp));
      qHead := Add32(qHead, 1);
    }

    /** Takes the oldest ring entry. */
    method TakeHead() returns (th: Uthread)
      requires RingValid() && rqHead != rqTail
      modifies this`rqTail
      ensures RingValid()
      ensures old(Contents()) == [th] + Contents()
    {
      TakeFromRing(rq[..], rqTail, Sub32(rqHead, rqTail), overflow);
      th := rq[Slot(rqTail)];
      rqTail := Add32(rqTail, 1);
    }

    /** The pop of schedule and enter_schedule: take the oldest ring entry and refill the ring. */
    method PopRing() returns (th: Uthread)
      requires Valid() && rqHead != rqTail
      modifies this, rq
      ensures Valid()
      ensures old(Contents()) == [th] + Contents()
    {
      CounterPop(qHead, qTail, |Contents()|, 1);
      th := TakeHead();
      qTail := Add32(qTail, 1);
      if overflow != [] {
        DrainOverflow();
      }
    }

    /**
     The scheduler's local pick: refill the ring, take the oldest thread, refill
     again. There is a thread exactly when the queue is not empty.
     */
    method PopNext() returns (found: bool, th: Uthread)
      requires Valid()
      modifies this, rq
      ensures Valid()
      ensures found <==> old(Contents()) != []
      ensures found ==> old(Contents()) == [th] + Contents()
      ensures !found ==> Contents() == []
    {
      if overflow != [] {
        DrainOverflow();
      }
      th := Uthread(0, 0);
      found := rqHead != rqTail;
      if found {
        th := PopRing();
      }
    }

    /** The loop of drain_threads: reads the ring from the tail, then pops the overflow list. */
    method TakeOldest(nr: U32) returns (l: seq<Uthread>, tail: U32)
      requires RingValid()
      modifies this`overflow
      ensures Sub32(rqHead, tail) <= RQ_SIZE
      ensures |l| <= nr && old(Contents()) == l + (RingOf(rq[..], tail, Sub32(rqHead, tail)) + overflow)
      ensures |l| < nr ==> tail == rqHead && overflow == []
    {
      ghost var slots, q := rq[..], Contents();
      tail := rqTail;
      l := [];
      while |l| < nr
        invariant |l| <= nr && Sub32(rqHead, tail) <= RQ_SIZE
        invariant q == l + (RingOf(slots, tail, Sub32(rqHead, tail)) + overflow)
      {
        if WrapsLt(tail, rqHead) {
          TookFromRing(q, l, slots, tail, Sub32(rqHead, tail), overflow);
          WindowStep(rqHead, tail);
          l := l + [rq[Slot(tail)]];
          tail := Add32(tail, 1);
        } else {
          if overflow == [] {
            break;
          }
          TookFromOverflow(q, l, slots, tail, overflow);
          l := l + [overflow[0]];
          overflow := overflow[1..];
        }
      }
    }

    /**
     drain_threads: takes up to nr of the oldest threads, ring first, then
     overflow. Without updateTail the ring entries stay behind for the caller to reset.
     */
    method DrainThreads(nr: U32, updateTail: bool) returns (l: seq<Uthread>)
      requires Valid()
      modifies this`rqTail, this`overflow, this`qTail
      ensures RingValid()
      ensures |l| == if nr < |old(Contents())| then nr else |old(Contents())|
      ensures l == old(Contents())[..|l|]
      ensures updateTail ==> Valid() && old(Contents()) == l + Contents()
      ensures !updateTail ==> rqTail == old(rqTail) && qTail == old(qTail)
      ensures |l| == |old(Contents())| ==> overflow == []
    {
      ghost var q := Contents();
      var tail;
      l, tail := TakeOldest(nr);
      assert l == q[..|l|];
      if updateTail {
        rqTail := tail;
        CounterPop(qHead, qTail, |q|, |l|);
        qTail := Add32(qTail, |l|);
      }
    }

    /** The merge loop of merge_runqueues, filling an emptied queue from two lists. */
    method Refill(left: seq<Uthread>, right: seq<Uthread>)
      requires RingValid() && Contents() == []
      modifies this`rqHead, this`overflow, rq
      ensures RingValid() && Contents() == Merge(left, right)
    {
      var lths, rths := left, right;
      ghost var merged: seq<Uthread> := [];
      var i, n := 0, |lths| + |rths|;
      while i < n
        invariant 0 <= i <= n && |lths| + |rths| == n - i
        invariant RingValid() && Contents() == merged
        invariant overflow == [] || Sub32(rqHead, rqTail) == RQ_SIZE
        invariant Merge(left, right) == merged + Merge(lths, rths)
      {
        var th: Uthread;
        ghost var todo := Merge(lths, rths);
        if rths != [] && (lths == [] || rths[0].readyTsc < lths[0].readyTsc) {
          th := rths[0];
          rths := rths[1..];
        } else {
          assert lths != [];
          th := lths[0];
          lths := lths[1..];
        }
        assert todo == [th] + Merge(lths, rths);
        MoveOne(merged, th, Merge(lths, rths));
        Append(th);
        merged := merged + [th];
        i := i + 1;
      }
    }

    /** The thief's half of merge_runqueues: empty the own queue, then merge the stolen threads in. */
    method MergeIn(lsize: U32, rths: seq<Uthread>)
      requires Valid() && lsize == |Contents()| && |rths| < WORD
      modifies this, rq
      ensures Valid() && Contents() == Merge(old(Contents()), rths)
    {
      var lths := Empty(lsize);
      MergeCounts(qHead, qTail, lths, rths);
      Refill(lths, rths);
      qHead := Add32(qHead, |rths|);
    }

    /** All threads leave the queue, and its ring starts over; the exported counters are left behind. */
    method Empty(lsize: U32) returns (lths: seq<Uthread>)
      requires Valid() && lsize == |Contents()|
      modifies this`rqHead, this`rqTail, this`overflow, this`qTail
      ensures RingValid() && Contents() == [] && lths == old(Contents()) && qTail == old(qTail)
    {
      lths := DrainThreads(lsize, false);
      assert lths == old(Contents());
      rqHead, rqTail := 0, 0;
    }
  }

  /** merge_runqueues: the thief l takes rsize threads from r and merges them into its own queue. */
  method MergeRunqueues(l: Kthread, lsize: U32, r: Kthread, rsize: U32)
    requires l != r && l.rq != r.rq && l.Valid() && r.Valid()
    requires lsize == |l.Contents()| && rsize <= |r.Contents()|
    requires lsize + rsize < WORD
    modifies l, l.rq, r`rqTail, r`overflow, r`qTail
    ensures l.Valid() && r.Valid()
    ensures r.Contents() == old(r.Contents())[rsize..]
    ensures l.Contents() == Merge(old(l.Contents()), old(r.Contents())[..rsize])
  {
    ghost var rq := r.Contents();
    var rths := r.DrainThreads(rsize, true);
    assert rths == rq[..rsize] && rq[rsize..] == r.Contents();
    l.MergeIn(lsize, rths);
  }

  /** steal_work, once the victim's lock is held and no softirq is involved. */
  method StealWork(l: Kthread, r: Kthread) returns (stolen: bool)
    requires l != r && l.rq != r.rq && l.Valid() && r.Valid()
    requires |l.Contents()| + |r.Contents()| < WORD
    modifies l, l.rq, r`rqTail, r`overflow, r`qTail
    ensures l.Valid() && r.Valid()
    ensures var n := StealCount(|old(l.Contents())|, |old(r.Contents())|);
            && stolen == (n > 0)
            && r.Contents() == old(r.Contents())[n..]
            && l.Contents() == if stolen then Merge(old(l.Contents()), old(r.Contents())[..n]) else old(l.Contents())
  {
    ghost var lq, rq := l.Contents(), r.Contents();
    WrapSmall(|lq|);
    WrapSmall(|rq|);
    var lsize := Sub32(l.qHead, l.qTail);
    var rsize := Sub32(r.qHead, r.qTail);
    var n := StealCount(lsize, rsize);
    assert n <= |rq| && rq[0..] == rq;
    stolen := n > 0;
    if stolen {
      MergeRunqueues(l, lsize, r, n);
    }
  }
}
