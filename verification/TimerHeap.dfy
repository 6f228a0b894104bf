/**
 The per-kthread timer heap: a 4-ary min-heap in an array, whose entries know their own
 index, and the earliest deadline exported to the iokernel.
 */
module TimerHeap {
  import opened Wrappers

  const MAX_TIMERS := 4096
  const UINT64 := 0x1_0000_0000_0000_0000

  type Entry = nat

  datatype TimerIdx = TimerIdx(deadline: nat, e: Entry)

  type Heap = seq<TimerIdx>

  /** The slot above slot i, counted in steps of the arity. */
  function Parent(i: nat): (p: nat)
    requires i > 0
    ensures p < i
  {
    if i <= 4 then 0 else Parent(i - 4) + 1
  }

  lemma {:induction false} ParentIsQuotient(i: nat)
    requires i > 0
    ensures Parent(i) == (i - 1) / 4 && 4 * Parent(i) + 1 <= i <= 4 * Parent(i) + 4
    decreases i
  {
    if i > 4 {
      ParentIsQuotient(i - 4);
    }
  }

  // --------------------------------------------------------- entries and their indices

  /** The heap holds exactly the armed timers, each with its deadline, and each entry's idx is its own slot. */
  ghost predicate Rep(h: Heap, idx: map<Entry, nat>, due: map<Entry, nat>) {
    && (forall i :: 0 <= i < |h| ==> h[i].e in idx && idx[h[i].e] == i && h[i].e in due && due[h[i].e] == h[i].deadline)
    && (forall e :: e in due ==> e in idx && idx[e] < |h| && h[idx[e]].e == e)
  }

  /** Exchange two slots and their entries' indices. */
  function SwapHeap(h: Heap, i: nat, j: nat): Heap
    requires i < |h| && j < |h|
  {
    h[i := h[j]][j := h[i]]
  }

  function SwapIdx(h: Heap, idx: map<Entry, nat>, i: nat, j: nat): map<Entry, nat>
    requires i < |h| && j < |h|
  {
    idx[h[j].e := i][h[i].e := j]
  }

  lemma SwapRep(h: Heap, idx: map<Entry, nat>, due: map<Entry, nat>, i: nat, j: nat)
    requires Rep(h, idx, due) && i < |h| && j < |h| && i != j
    ensures Rep(SwapHeap(h, i, j), SwapIdx(h, idx, i, j), due)
  {
  }

  lemma PushRep(h: Heap, idx: map<Entry, nat>, due: map<Entry, nat>, x: TimerIdx)
    requires Rep(h, idx, due) && x.e !in due
    ensures Rep(h + [x], idx[x.e := |h|], due[x.e := x.deadline])
  {
  }

  /** The last slot leaves the heap. */
  lemma DropLastRep(h: Heap, idx: map<Entry, nat>, due: map<Entry, nat>)
    requires Rep(h, idx, due) && h != []
    ensures Rep(h[..|h| - 1], idx, due - {h[|h| - 1].e})
  {
  }

  /** The last slot replaces slot i. */
  lemma ReplaceRep(h: Heap, idx: map<Entry, nat>, due: map<Entry, nat>, i: nat)
    requires Rep(h, idx, due) && i < |h| - 1
    ensures Rep(h[i := h[|h| - 1]][..|h| - 1], idx[h[|h| - 1].e := i], due - {h[i].e})
  {
  }

  // ------------------------------------------------------------------------- order

  ghost predicate HeapOrder(h: Heap) {
    forall j :: 0 < j < |h| ==> h[Parent(j)].deadline <= h[j].deadline
  }

  /** Ordered but for the edges at slot i; its children are not below its parent. */
  ghost predicate GapOk(h: Heap, i: nat) {
    && (forall j :: 0 < j < |h| && j != i && Parent(j) != i ==> h[Parent(j)].deadline <= h[j].deadline)
    && (i > 0 ==> forall j :: 0 < j < |h| && Parent(j) == i ==> h[Parent(i)].deadline <= h[j].deadline)
  }

  /** Ordered but for the edges from slot i to its children. */
  ghost predicate DownOk(h: Heap, i: nat) {
    GapOk(h, i) && (0 < i < |h| ==> h[Parent(i)].deadline <= h[i].deadline)
  }

  /** Ordered but for the edge from slot i to its parent. */
  ghost predicate UpOk(h: Heap, i: nat) {
    GapOk(h, i) && forall j :: 0 < j < |h| && Parent(j) == i && i < |h| ==> h[i].deadline <= h[j].deadline
  }

  lemma SwapUp(h: Heap, i: nat)
    requires GapOk(h, i) && 0 < i < |h| && h[i].deadline < h[Parent(i)].deadline
    ensures UpOk(SwapHeap(h, i, Parent(i)), Parent(i))
  {
  }

  lemma SwapDown(h: Heap, i: nat, c: nat)
    requires DownOk(h, i) && 0 < c < |h| && Parent(c) == i && h[c].deadline < h[i].deadline
    requires forall j :: 0 < j < |h| && Parent(j) == i ==> h[c].deadline <= h[j].deadline
    ensures DownOk(SwapHeap(h, i, c), c)
  {
  }

  lemma PushGap(h: Heap, x: TimerIdx)
    requires HeapOrder(h)
    ensures GapOk(h + [x], |h|)
  {
  }

  lemma ReplaceGap(h: Heap, i: nat)
    requires HeapOrder(h) && i < |h| - 1
    ensures GapOk(h[i := h[|h| - 1]][..|h| - 1], i)
  {
    var h' := h[i := h[|h| - 1]][..|h| - 1];
    forall j | i > 0 && 0 < j < |h'| && Parent(j) == i
      ensures h'[Parent(i)].deadline <= h'[j].deadline
    {
      assert h[Parent(i)].deadline <= h[i].deadline <= h[j].deadline;
    }
  }

  /** The root is the earliest of all. */
  lemma {:induction false} RootIsMin(h: Heap, i: nat)
    requires HeapOrder(h) && i < |h|
    ensures h[0].deadline <= h[i].deadline
    decreases i
  {
    if i > 0 {
      RootIsMin(h, Parent(i));
    }
  }

  lemma OrderedIsDown(h: Heap, i: nat)
    requires HeapOrder(h)
    ensures i < |h| ==> DownOk(h, i)
  {
    forall j | 0 < i < |h| && 0 < j < |h| && Parent(j) == i
      ensures h[Parent(i)].deadline <= h[j].deadline
    {
      assert h[Parent(i)].deadline <= h[i].deadline <= h[j].deadline;
    }
  }

  lemma UpMeetsParent(h: Heap, i: nat)
    requires UpOk(h, i) && i < |h| && (i > 0 ==> h[Parent(i)].deadline <= h[i].deadline)
    ensures HeapOrder(h)
  {
  }

  lemma DownMeetsChildren(h: Heap, i: nat)
    requires DownOk(h, i) && i < |h|
    requires forall j :: 0 < j < |h| && Parent(j) == i ==> h[i].deadline <= h[j].deadline
    ensures HeapOrder(h)
  {
  }

  /** The last slot has no children. */
  lemma LastIsLeaf(h: Heap, i: nat)
    requires i + 1 == |h| && DownOk(h, i)
    ensures HeapOrder(h)
  {
    forall j | 0 < j < |h|
      ensures h[Parent(j)].deadline <= h[j].deadline
    {
      assert Parent(j) != i;
    }
  }

  /** The exported time stamp of the earliest deadline, or the largest word when no timer is armed. */
  function NextTsc(h: Heap, cyclesPerUs: nat, startTsc: nat): nat {
    if h == [] then UINT64 - 1 else (h[0].deadline * cyclesPerUs + startTsc) % UINT64
  }

  /** The exported time stamp is that of the earliest armed timer. */
  lemma NextTscIsEarliest(h: Heap, idx: map<Entry, nat>, due: map<Entry, nat>, cyclesPerUs: nat, startTsc: nat)
    requires Rep(h, idx, due) && HeapOrder(h)
    ensures due == map[] ==> NextTsc(h, cyclesPerUs, startTsc) == UINT64 - 1
    ensures due != map[] ==>
              exists e :: e in due && (forall f :: f in due ==> due[e] <= due[f])
                          && NextTsc(h, cyclesPerUs, startTsc) == (due[e] * cyclesPerUs + startTsc) % UINT64
  {
    if h == [] {
      assert forall e :: e !in due;
    } else {
      var e := h[0].e;
      forall f | f in due
        ensures due[e] <= due[f]
      {
        RootIsMin(h, idx[f]);
      }
      assert e in due && NextTsc(h, cyclesPerUs, startTsc) == (due[e] * cyclesPerUs + startTsc) % UINT64;
    }
  }

  datatype StartResult = Started | AlreadyArmed | TooMany

  class Timers {
    const cyclesPerUs: nat
    const startTsc: nat
    const heap: array<TimerIdx>      // timers
    var n: nat                       // timern
    var idx: map<Entry, nat>         // e->idx
    var armed: set<Entry>            // e->armed
    var nextTsc: nat                 // q_ptrs->next_timer_tsc
    ghost var due: map<Entry, nat>   // the armed timers and their deadlines

    ghost predicate Stored()
      reads this, heap
    {
      n <= heap.Length == MAX_TIMERS && Rep(heap[..n], idx, due)
    }

    ghost predicate Valid()
      reads this, heap
    {
      && Stored() && n < MAX_TIMERS
      && HeapOrder(heap[..n])
      && armed == due.Keys
      && nextTsc == NextTsc(heap[..n], cyclesPerUs, startTsc)
    }

    constructor (cyclesPerUs: nat, startTsc: nat)
      ensures Valid() && fresh(heap) && due == map[]
    {
      this.cyclesPerUs, this.startTsc := cyclesPerUs, startTsc;
      heap := new TimerIdx[MAX_TIMERS](_ => TimerIdx(0, 0));
      n, idx, armed, nextTsc, due := 0, map[], {}, UINT64 - 1, map[];
    }

    /** One step of sifting: slot j, which holds tmp, trades places with slot k. */
    method Exchange(j: nat, k: nat, tmp: TimerIdx)
      requires Stored() && j < n && k < n && j != k && heap[j] == tmp
      modifies heap, this`idx
      ensures Stored() && heap[..n] == SwapHeap(old(heap[..n]), j, k) && heap[k] == tmp
    {
      SwapRep(heap[..n], idx, due, j, k);
      heap[j] := heap[k];
      idx := idx[heap[j].e := j];
      heap[k] := tmp;
      idx := idx[heap[k].e := k];
      assert heap[..n] == SwapHeap(old(heap[..n]), j, k);
    }

    /** sift_up. Afterwards slot i may only be too late for its children. */
    method SiftUp(i: nat)
      requires Stored() && i < n && GapOk(heap[..n], i)
      modifies heap, this`idx
      ensures Stored() && DownOk(heap[..n], i)
    {
      var tmp := heap[i];
      var j := i;
      while j > 0
        invariant j <= i && Stored() && heap[j] == tmp
        invariant if j == i then GapOk(heap[..n], i) else UpOk(heap[..n], j)
      {
        var p := (j - 1) / 4;
        ParentIsQuotient(j);
        if tmp.deadline >= heap[p].deadline {
          break;
        }
        SwapUp(heap[..n], j);
        Exchange(j, p, tmp);
        j := p;
      }
      if j < i {
        UpMeetsParent(heap[..n], j);
        OrderedIsDown(heap[..n], i);
      }
    }

    /** The scan of sift_down: the earliest child that is earlier than slot i, or n. */
    method EarliestChild(i: nat) returns (c: nat)
      requires Stored() && i < n
      ensures c == n ==> forall j :: 0 < j < n && Parent(j) == i ==> heap[i].deadline <= heap[j].deadline
      ensures c != n ==> 0 < c < n && Parent(c) == i && heap[c].deadline < heap[i].deadline
      ensures c != n ==> forall j :: 0 < j < n && Parent(j) == i ==> heap[c].deadline <= heap[j].deadline
    {
      var w := heap[i].deadline;
      c := n;
      var j := i * 4 + 1;
      while j <= i * 4 + 4 && j < n
        invariant i * 4 + 1 <= j <= i * 4 + 5
        invariant c == n ==> w == heap[i].deadline
        invariant c != n ==> i * 4 + 1 <= c < j && c < n && w == heap[c].deadline < heap[i].deadline
        invariant forall k :: i * 4 + 1 <= k < j && k < n ==> w <= heap[k].deadline
      {
        if heap[j].deadline < w {
          w, c := heap[j].deadline, j;
        }
        j := j + 1;
      }
      forall k | 0 < k < n
        ensures Parent(k) == i <==> i * 4 + 1 <= k <= i * 4 + 4
      {
        ParentIsQuotient(k);
      }
    }

    /** One step down: the entry in slot j trades places with its earliest child. */
    method StepDown(j: nat, c: nat, tmp: TimerIdx)
      requires Stored() && j < n && 0 < c < n && Parent(c) == j && heap[j] == tmp && DownOk(heap[..n], j)
      requires heap[c].deadline < heap[j].deadline
      requires forall k :: 0 < k < n && Parent(k) == j ==> heap[c].deadline <= heap[k].deadline
      modifies heap, this`idx
      ensures Stored() && heap[c] == tmp && DownOk(heap[..n], c)
    {
      SwapDown(heap[..n], j, c);
      Exchange(j, c, tmp);
    }

    /** sift_down restores the order. */
    method SiftDown(i: nat)
      requires Stored() && i < n && DownOk(heap[..n], i)
      modifies heap, this`idx
      ensures Stored() && HeapOrder(heap[..n])
    {
      var tmp := heap[i];
      var j := i;
      while true
        invariant j < n && Stored() && heap[j] == tmp && DownOk(heap[..n], j)
        decreases n - j
      {
        var c := EarliestChild(j);
        if c == n {
          break;
        }
        StepDown(j, c, tmp);
        j := c;
      }
      DownMeetsChildren(heap[..n], j);
    }

    /** update_q_ptrs. */
    method UpdateQPtrs()
      requires Stored()
      modifies this`nextTsc
      ensures nextTsc == NextTsc(heap[..n], cyclesPerUs, startTsc)
    {
      nextTsc := if n > 0 then (heap[0].deadline * cyclesPerUs + startTsc) % UINT64 else UINT64 - 1;
    }

    method Insert(e: Entry, deadline: nat)
      requires Stored() && n < MAX_TIMERS && e !in due && HeapOrder(heap[..n])
      modifies heap, this`n, this`idx, this`due
      ensures Stored() && n == old(n) + 1 && due == old(due)[e := deadline] && HeapOrder(heap[..n])
    {
      PutLast(e, deadline);
      SiftUp(n - 1);
      LastIsLeaf(heap[..n], n - 1);
    }

    /** timer_start; the two failures stop the program. */
    method Start(e: Entry, deadline: nat) returns (r: StartResult)
      requires Valid()
      modifies this, heap
      ensures r.AlreadyArmed? <==> e in old(armed)
      ensures r.TooMany? <==> e !in old(armed) && old(n) + 1 >= MAX_TIMERS
      ensures r.Started? ==> Valid() && due == old(due)[e := deadline]
      ensures !r.Started? ==> Valid() && due == old(due)
    {
      if e in armed {
        return AlreadyArmed;
      }
      if n + 1 >= MAX_TIMERS {
        return TooMany;
      }
      Insert(e, deadline);
      UpdateQPtrs();
      armed := armed + {e};
      return Started;
    }

    /** The new timer takes the first free slot. */
    method PutLast(e: Entry, deadline: nat)
      requires Stored() && n < MAX_TIMERS && e !in due && HeapOrder(heap[..n])
      modifies heap, this`n, this`idx, this`due
      ensures Stored() && n == old(n) + 1 && due == old(due)[e := deadline] && GapOk(heap[..n], old(n))
    {
      ghost var h := heap[..n];
      PushRep(h, idx, due, TimerIdx(deadline, e));
      PushGap(h, TimerIdx(deadline, e));
      n := n + 1;
      heap[n - 1] := TimerIdx(deadline, e);
      idx := idx[e := n - 1];
      due := due[e := deadline];
      assert heap[..n] == h + [TimerIdx(deadline, e)];
    }

    /** The entry in the last slot leaves the heap. */
    method DropLast()
      requires Stored() && n > 0 && HeapOrder(heap[..n])
      modifies this`n, this`due
      ensures Stored() && n == old(n) - 1 && due == old(due) - {heap[n].e} && HeapOrder(heap[..n])
    {
      ghost var h := heap[..n];
      DropLastRep(h, idx, due);
      n := n - 1;
      due := due - {heap[n].e};
      assert heap[..n] == h[..n];
    }

    /** The entry in slot i leaves the heap, and the last slot takes its place. */
    method ReplaceByLast(i: nat)
      requires Stored() && i + 1 < n && HeapOrder(heap[..n])
      modifies heap, this`n, this`idx, this`due
      ensures Stored() && n == old(n) - 1 && due == old(due) - {old(heap[i].e)} && GapOk(heap[..n], i)
    {
      ghost var h := heap[..n];
      ReplaceRep(h, idx, due, i);
      ReplaceGap(h, i);
      n := n - 1;
      due := due - {heap[i].e};
      heap[i] := heap[n];
      idx := idx[heap[i].e := i];
      assert heap[..n] == h[i := h[n]][..n];
    }

    /** Removal from the middle: the slot that moved in may have to go up or down. */
    method RemoveAt(i: nat)
      requires Stored() && i < n && HeapOrder(heap[..n])
      modifies heap, this`n, this`idx, this`due
      ensures Stored() && n == old(n) - 1 && due == old(due) - {old(heap[i].e)} && HeapOrder(heap[..n])
    {
      if i == n - 1 {
        DropLast();
      } else {
        ReplaceByLast(i);
        SiftUp(i);
        SiftDown(i);
      }
    }

    /** Removal of the root: the slot that moved in can only go down. */
    method RemoveRoot()
      requires Stored() && n > 0 && HeapOrder(heap[..n])
      modifies heap, this`n, this`idx, this`due
      ensures Stored() && n == old(n) - 1 && due == old(due) - {old(heap[0].e)} && HeapOrder(heap[..n])
    {
      if n == 1 {
        DropLast();
      } else {
        ReplaceByLast(0);
        SiftDown(0);
      }
    }

    /** The locked part of __timer_cancel: an armed timer leaves the heap from wherever it is. */
    method Cancel(e: Entry) returns (cancelled: bool)
      requires Valid()
      modifies this, heap
      ensures Valid() && cancelled == (e in old(armed))
      ensures due == old(due) - {e}
    {
      if e !in armed {
        return false;
      }
      RemoveAt(idx[e]);
      UpdateQPtrs();
      armed := armed - {e};
      return true;
    }

    /** Nothing is due before the root. */
    lemma RootIsEarliest()
      requires Stored() && n > 0 && HeapOrder(heap[..n])
      ensures heap[0].e in due && due[heap[0].e] == heap[0].deadline
      ensures forall f :: f in due ==> heap[0].deadline <= due[f]
    {
      assert heap[..n][0] == heap[0];
      forall f | f in due
        ensures heap[0].deadline <= due[f]
      {
        RootIsMin(heap[..n], idx[f]);
      }
    }

    /** The locked part of timer_softirq_one: the earliest timer leaves the heap if it is due. */
    method PopExpired(nowUs: nat) returns (fired: Option<Entry>)
      requires Valid()
      modifies this, heap
      ensures Valid()
      ensures fired.None? ==> due == old(due) && forall f :: f in due ==> due[f] > nowUs
      ensures fired.Some? ==>
                && fired.value in old(due) && old(due)[fired.value] <= nowUs
                && (forall f :: f in old(due) ==> old(due)[fired.value] <= old(due)[f])
                && due == old(due) - {fired.value}
    {
      if n == 0 {
        return None;
      }
      RootIsEarliest();
      if heap[0].deadline > nowUs {
        return None;
      }
      var e := heap[0].e;
      RemoveRoot();
      UpdateQPtrs();
      armed := armed - {e};
      return Some(e);
    }
  }
}
