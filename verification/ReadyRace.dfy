/**
 The lock-free tail push of the kthread that owns a run queue, interleaved step by
 step with a thief that drains the same queue under the queue's lock.

 Every shared-memory access that the two sides make without excluding each other
 is a step of its own; a section that holds the lock from start to end is one step.
 */
module ReadyRace {
  import opened Words
  import opened RunQueue

  /** The owner inside thread_ready. */
  datatype OwnerPc =
    | Idle
    | GotTail(th: Uthread, tail: U32)   // has loaded rq_tail
    | Fast(th: Uthread)                 // saw room and an empty overflow list
    | Wrote(th: Uthread)                // has written the slot, not yet the head
    | Slow(th: Uthread)                 // must take the lock and use the overflow list
    | Queued                            // the thread is in; the exported head is one behind

  /** The thief inside merge_runqueues and drain_threads, holding the lock unless Away. */
  datatype ThiefPc =
    | Away
    | Locked(want: U32)
    | Draining(want: U32, snap: U32, tail: U32, taken: seq<Uthread>)

  datatype Queue = Queue(slots: seq<Uthread>, head: U32, tail: U32, overflow: seq<Uthread>)

  /**
   `entered` and `left` record the threads in the order they joined and left the
   queue; `reordered` records whether a head push or a merge ever happened.
   */
  datatype State = State(
    q: Queue, qHead: U32, qTail: U32, owner: OwnerPc, thief: ThiefPc,
    entered: seq<Uthread>, left: seq<Uthread>, reordered: bool)

  ghost predicate QueueOk(q: Queue) {
    |q.slots| == RQ_SIZE && Sub32(q.head, q.tail) <= RQ_SIZE
  }

  ghost function QueueFrom(q: Queue, tail: U32): seq<Uthread>
    requires |q.slots| == RQ_SIZE
  {
    RingOf(q.slots, tail, Sub32(q.head, tail)) + q.overflow
  }

  /** The threads logically queued: a drain in progress has already taken what it read. */
  ghost function Logical(s: State): seq<Uthread>
    requires |s.q.slots| == RQ_SIZE
  {
    QueueFrom(s.q, EffectiveTail(s))
  }

  ghost function EffectiveTail(s: State): U32 {
    if s.thief.Draining? then s.thief.tail else s.q.tail
  }

  ghost function Taken(s: State): seq<Uthread> {
    if s.thief.Draining? then s.thief.taken else []
  }

  /** drain_overflow, as the value it leaves behind. */
  ghost function Drained(q: Queue): (r: Queue)
    requires QueueOk(q)
    ensures QueueOk(r) && r.tail == q.tail
    ensures QueueFrom(r, r.tail) == QueueFrom(q, q.tail)
    ensures FullOrEmpty(r)
    decreases |q.overflow|
  {
    var n := Sub32(q.head, q.tail);
    if n < RQ_SIZE && q.overflow != [] then
      DrainStep(q.slots, q.tail, n, q.overflow);
      Drained(Queue(q.slots[Slot(q.head) := q.overflow[0]], Add32(q.head, 1), q.tail, q.overflow[1..]))
    else q
  }

  /** One thread at the end: in the ring while there is room. */
  ghost function Appended(q: Queue, th: Uthread): Queue
    requires QueueOk(q)
  {
    if Sub32(q.head, q.tail) >= RQ_SIZE then q.(overflow := q.overflow + [th])
    else q.(slots := q.slots[Slot(q.head) := th], head := Add32(q.head, 1))
  }

  /** A ring that has overflowed is full. */
  ghost predicate FullOrEmpty(q: Queue) {
    q.overflow == [] || Sub32(q.head, q.tail) == RQ_SIZE
  }

  lemma AppendedIs(q: Queue, th: Uthread)
    requires QueueOk(q) && FullOrEmpty(q)
    ensures var r := Appended(q, th);
            QueueOk(r) && FullOrEmpty(r) && r.tail == q.tail && QueueFrom(r, r.tail) == QueueFrom(q, q.tail) + [th]
  {
    var n := Sub32(q.head, q.tail);
    SnocAssoc(RingOf(q.slots, q.tail, n), q.overflow, th);
    if n < RQ_SIZE {
      assert Add32(q.tail, n) == q.head;
      WindowStep(q.head, q.tail);
      RingPushBack(q.slots, q.tail, n, th);
    }
  }

  /** The threads of a list at the end, one after the other. */
  ghost function Filled(q: Queue, list: seq<Uthread>): (r: Queue)
    requires QueueOk(q) && FullOrEmpty(q)
    ensures QueueOk(r) && FullOrEmpty(r) && QueueFrom(r, r.tail) == QueueFrom(q, q.tail) + list
    decreases |list|
  {
    if list == [] then q
    else
      AppendedIs(q, list[0]);
      MoveOne(QueueFrom(q, q.tail), list[0], list[1..]);
      assert [list[0]] + list[1..] == list;
      Filled(Appended(q, list[0]), list[1..])
  }

  // ------------------------------------------------------------------ steps

  datatype Step =
    | LoadTail(th: Uthread)
    | Check
    | WriteSlot
    | PublishHead
    | SlowInsert
    | Export
    | OwnerPop
    | OwnerPushHead(th: Uthread)
    | OwnerPushLocked(th: Uthread)
    | OwnerMerge(stolen: seq<Uthread>)
    | Lock(want: U32)
    | Snapshot
    | TakeRing
    | TakeOverflow
    | Publish

  ghost predicate Init(s: State) {
    && |s.q.slots| == RQ_SIZE && s.q.head == s.q.tail && s.q.overflow == []
    && s.qHead == s.qTail && s.owner.Idle? && s.thief.Away?
    && s.entered == [] && s.left == [] && !s.reordered
  }

  ghost predicate Enabled(s: State, step: Step) {
    match step
    case LoadTail(_) => s.owner.Idle?
    case Check => s.owner.GotTail?
    case WriteSlot => s.owner.Fast?
    case PublishHead => s.owner.Wrote?
    case SlowInsert => s.owner.Slow? && s.thief.Away?
    case Export => s.owner.Queued?
    case OwnerPop => s.owner.Idle? && s.thief.Away? && s.q.head != s.q.tail
    case OwnerPushHead(_) => s.owner.Idle? && s.thief.Away?
    case OwnerPushLocked(_) => s.owner.Idle? && s.thief.Away?
    case OwnerMerge(stolen) =>
      s.owner.Idle? && s.thief.Away? && |s.q.slots| == RQ_SIZE && |QueueFrom(s.q, s.q.tail)| + |stolen| < WORD
    case Lock(want) => s.thief.Away? && want <= Sub32(s.qHead, s.qTail)
    case Snapshot => s.thief.Locked?
    case TakeRing => s.thief.Draining? && |s.thief.taken| < s.thief.want && WrapsLt(s.thief.tail, s.thief.snap)
    case TakeOverflow =>
      s.thief.Draining? && |s.thief.taken| < s.thief.want && !WrapsLt(s.thief.tail, s.thief.snap) && s.q.overflow != []
    case Publish =>
      s.thief.Draining? && |s.thief.taken| <= s.thief.want
      && (|s.thief.taken| == s.thief.want || (!WrapsLt(s.thief.tail, s.thief.snap) && s.q.overflow == []))
  }

  ghost function DoCheck(s: State): State
    requires s.owner.GotTail?
  {
    if Sub32(s.q.head, s.owner.tail) >= RQ_SIZE || s.q.overflow != [] then s.(owner := Slow(s.owner.th))
    else s.(owner := Fast(s.owner.th))
  }

  ghost function DoWriteSlot(s: State): State
    requires QueueOk(s.q) && s.owner.Fast?
  {
    s.(q := s.q.(slots := s.q.slots[Slot(s.q.head) := s.owner.th]), owner := Wrote(s.owner.th))
  }

  ghost function DoPublishHead(s: State): State
    requires s.owner.Wrote?
  {
    s.(q := s.q.(head := Add32(s.q.head, 1)), owner := Queued, entered := s.entered + [s.owner.th])
  }

  ghost function DoSlowInsert(s: State): State
    requires QueueOk(s.q) && s.owner.Slow?
  {
    s.(q := Drained(s.q.(overflow := s.q.overflow + [s.owner.th])), owner := Queued,
       entered := s.entered + [s.owner.th])
  }

  ghost function DoExport(s: State): State {
    s.(qHead := Add32(s.qHead, 1), owner := Idle)
  }

  ghost function DoOwnerPop(s: State): State
    requires QueueOk(s.q) && s.q.head != s.q.tail
  {
    s.(q := Drained(s.q.(tail := Add32(s.q.tail, 1))), qTail := Add32(s.qTail, 1),
       left := s.left + [s.q.slots[Slot(s.q.tail)]])
  }

  ghost function DoOwnerPushHead(s: State, th: Uthread): State
    requires QueueOk(s.q)
  {
    var q, t := s.q, Sub32(s.q.tail, 1);
    var slots := q.slots[Slot(t) := th];
    var q' := if Sub32(q.head, t) > RQ_SIZE
              then Queue(slots, Sub32(q.head, 1), t, [q.slots[Slot(t)]] + q.overflow)
              else Queue(slots, q.head, t, q.overflow);
    s.(q := q', owner := Queued, entered := s.entered + [th], reordered := true)
  }

  /** thread_ready_locked. */
  ghost function DoPushLocked(s: State, th: Uthread): State
    requires QueueOk(s.q)
  {
    s.(q := Appended(Drained(s.q), th), qHead := Add32(s.qHead, 1), entered := s.entered + [th])
  }

  /** The owner as a thief: its own ring is emptied and reset, and filled with both queues merged. */
  ghost function DoMerge(s: State, stolen: seq<Uthread>): State
    requires QueueOk(s.q) && |stolen| < WORD
  {
    s.(q := Filled(Queue(s.q.slots, 0, 0, []), Merge(QueueFrom(s.q, s.q.tail), stolen)),
       qHead := Add32(s.qHead, |stolen|), entered := s.entered + stolen, reordered := true)
  }

  ghost function DoTakeRing(s: State): State
    requires QueueOk(s.q) && s.thief.Draining?
  {
    var th := s.q.slots[Slot(s.thief.tail)];
    s.(thief := s.thief.(tail := Add32(s.thief.tail, 1), taken := s.thief.taken + [th]), left := s.left + [th])
  }

  ghost function DoTakeOverflow(s: State): State
    requires s.thief.Draining? && s.q.overflow != []
  {
    var th := s.q.overflow[0];
    s.(q := s.q.(overflow := s.q.overflow[1..]), thief := s.thief.(taken := s.thief.taken + [th]),
       left := s.left + [th])
  }

  ghost function DoPublish(s: State): State
    requires s.thief.Draining?
  {
    s.(q := s.q.(tail := s.thief.tail), qTail := Add32(s.qTail, Wrap32(|s.thief.taken|)), thief := Away)
  }

  ghost function Apply(s: State, step: Step): State
    requires QueueOk(s.q) && Enabled(s, step)
  {
    match step
    case LoadTail(th) => s.(owner := GotTail(th, s.q.tail))
    case Check => DoCheck(s)
    case WriteSlot => DoWriteSlot(s)
    case PublishHead => DoPublishHead(s)
    case SlowInsert => DoSlowInsert(s)
    case Export => DoExport(s)
    case OwnerPop => DoOwnerPop(s)
    case OwnerPushHead(th) => DoOwnerPushHead(s, th)
    case OwnerPushLocked(th) => DoPushLocked(s, th)
    case OwnerMerge(stolen) => DoMerge(s, stolen)
    case Lock(want) => s.(thief := Locked(want))
    case Snapshot => s.(thief := Draining(s.thief.want, s.q.head, s.q.tail, []))
    case TakeRing => DoTakeRing(s)
    case TakeOverflow => DoTakeOverflow(s)
    case Publish => DoPublish(s)
  }

  ghost predicate NextBy(s: State, step: Step, s': State) {
    QueueOk(s.q) && Enabled(s, step) && s' == Apply(s, step)
  }

  ghost predicate Next(s: State, s': State) {
    exists step :: NextBy(s, step, s')
  }

  // -------------------------------------------------------------- invariant

  /** Where the owner stands: the room it saw is still there. */
  ghost predicate OwnerOk(s: State) {
    match s.owner
    case GotTail(_, tail) => Sub32(s.q.head, s.q.tail) <= Sub32(s.q.head, tail) <= RQ_SIZE
    case Fast(_) => Sub32(s.q.head, s.q.tail) < RQ_SIZE && s.q.overflow == []
    case Wrote(th) =>
      && Sub32(s.q.head, s.q.tail) < RQ_SIZE && s.q.overflow == []
      && |s.q.slots| == RQ_SIZE && s.q.slots[Slot(s.q.head)] == th
    case _ => true
  }

  /** The published tail, the drain's tail, its snapshot and the head stand in that order. */
  ghost predicate ThiefOk(s: State) {
    s.thief.Draining? ==>
      && Sub32(s.q.head, s.thief.snap) <= Sub32(s.q.head, s.thief.tail) <= Sub32(s.q.head, s.q.tail)
      && (s.q.overflow != [] ==> s.thief.snap == s.q.head)
      && |s.thief.taken| <= s.thief.want
  }

  /** The threads still wanted are there: the exported length never promises too many. */
  ghost predicate WantOk(s: State)
    requires |s.q.slots| == RQ_SIZE
  {
    match s.thief
    case Away => true
    case Locked(want) => want + Pending(s) <= |Logical(s)|
    case Draining(want, snap, tail, taken) =>
      && want + Pending(s) <= |taken| + |Logical(s)|
      && want <= |taken| + Sub32(snap, tail) + |s.q.overflow|
  }

  ghost function Pending(s: State): nat {
    if s.owner.Queued? then 1 else 0
  }

  /** The exported counters lag by a thread the owner has not counted and those the thief has not. */
  ghost predicate ExportOk(s: State)
    requires |s.q.slots| == RQ_SIZE
  {
    && Pending(s) <= |Logical(s)| + |Taken(s)|
    && Sub32(s.qHead, s.qTail) == Wrap32(|Logical(s)| + |Taken(s)| - Pending(s))
  }

  ghost predicate Inv(s: State) {
    QueueOk(s.q) && OwnerOk(s) && ThiefOk(s) && WantOk(s) && ExportOk(s)
  }

  // ---------------------------------------------------------- the simple deque

  /** An atomic deque together with the record of what entered and left it. */
  datatype Deque = Deque(q: seq<Uthread>, entered: seq<Uthread>, left: seq<Uthread>, reordered: bool)

  ghost function Abs(s: State): Deque
    requires |s.q.slots| == RQ_SIZE
  {
    Deque(Logical(s), s.entered, s.left, s.reordered)
  }

  ghost predicate PushBack(d: Deque, d': Deque, th: Uthread) {
    d' == Deque(d.q + [th], d.entered + [th], d.left, d.reordered)
  }

  ghost predicate PushFront(d: Deque, d': Deque, th: Uthread) {
    d' == Deque([th] + d.q, d.entered + [th], d.left, true)
  }

  ghost predicate PopFront(d: Deque, d': Deque, th: Uthread) {
    d.q == [th] + d'.q && d' == Deque(d'.q, d.entered, d.left + [th], d.reordered)
  }

  ghost predicate MergeIn(d: Deque, d': Deque, stolen: seq<Uthread>) {
    d' == Deque(Merge(d.q, stolen), d.entered + stolen, d.left, true)
  }

  ghost predicate DequeNext(d: Deque, d': Deque) {
    || d' == d
    || (exists th :: PushBack(d, d', th) || PushFront(d, d', th) || PopFront(d, d', th))
    || (exists stolen :: MergeIn(d, d', stolen))
  }

  /** Nothing is lost or duplicated; without head pushes and merges the order is first in, first out. */
  ghost predicate Conserved(d: Deque) {
    && multiset(d.entered) == multiset(d.left) + multiset(d.q)
    && (!d.reordered ==> d.entered == d.left + d.q)
  }

  lemma PushConserves(d: Deque, d': Deque, th: Uthread)
    requires Conserved(d) && (PushBack(d, d', th) || PushFront(d, d', th) || PopFront(d, d', th))
    ensures Conserved(d')
  {
    if PushBack(d, d', th) {
      SnocAssoc(d.left, d.q, th);
    } else if PopFront(d, d', th) {
      MoveOne(d.left, th, d'.q);
    }
  }

  lemma MergeConserves(d: Deque, d': Deque, stolen: seq<Uthread>)
    requires Conserved(d) && MergeIn(d, d', stolen)
    ensures Conserved(d')
  {
    MergeInterleaves(d.q, stolen);
    InterleavesConserves(d'.q, d.q, stolen);
  }

  lemma DequeConserves(d: Deque, d': Deque)
    requires Conserved(d) && DequeNext(d, d')
    ensures Conserved(d')
  {
    if th :| PushBack(d, d', th) || PushFront(d, d', th) || PopFront(d, d', th) {
      PushConserves(d, d', th);
    } else if stolen :| MergeIn(d, d', stolen) {
      MergeConserves(d, d', stolen);
    }
  }

  // ------------------------------------------------- each step on the deque

  /** The window seen from the drain's tail is no larger than the ring. */
  lemma WindowFromTail(s: State)
    requires QueueOk(s.q) && ThiefOk(s)
    ensures var n := Sub32(s.q.head, EffectiveTail(s));
            n <= Sub32(s.q.head, s.q.tail) && Add32(EffectiveTail(s), n) == s.q.head
  {
  }

  /** The owner writes a slot that no live entry uses, even one a drain has not read yet. */
  lemma WriteSlotInv(s: State)
    requires Inv(s) && Enabled(s, WriteSlot)
    ensures Logical(DoWriteSlot(s)) == Logical(s)
    ensures Inv(DoWriteSlot(s))
  {
    var t := EffectiveTail(s);
    var n := Sub32(s.q.head, t);
    WindowFromTail(s);
    RingFrame(s.q.slots, t, n, n, s.owner.th);
  }

  /** Publishing the head is the moment the thread is appended. */
  lemma PublishHeadInv(s: State)
    requires Inv(s) && Enabled(s, PublishHead)
    ensures Logical(DoPublishHead(s)) == Logical(s) + [s.owner.th]
    ensures Inv(DoPublishHead(s))
  {
    var t := EffectiveTail(s);
    var n := Sub32(s.q.head, t);
    WindowFromTail(s);
    WindowStep(s.q.head, t);
    WindowStep(s.q.head, s.q.tail);
    RingSnoc(s.q.slots, t, n);
    SnocAssoc(RingOf(s.q.slots, t, n), s.q.overflow, s.owner.th);
  }

  lemma SlowInsertInv(s: State)
    requires Inv(s) && Enabled(s, SlowInsert)
    ensures Logical(DoSlowInsert(s)) == Logical(s) + [s.owner.th]
    ensures Inv(DoSlowInsert(s))
  {
    var q := s.q.(overflow := s.q.overflow + [s.owner.th]);
    SnocAssoc(RingOf(q.slots, q.tail, Sub32(q.head, q.tail)), s.q.overflow, s.owner.th);
    assert QueueFrom(q, q.tail) == Logical(s) + [s.owner.th];
  }

  lemma ExportInv(s: State)
    requires Inv(s) && Enabled(s, Export)
    ensures Logical(DoExport(s)) == Logical(s)
    ensures Inv(DoExport(s))
  {
    CounterPush(s.qHead, s.qTail, |Logical(s)| + |Taken(s)| - 1, 1);
  }

  lemma OwnerPopInv(s: State)
    requires Inv(s) && Enabled(s, OwnerPop)
    ensures Logical(s) == [s.q.slots[Slot(s.q.tail)]] + Logical(DoOwnerPop(s))
    ensures Inv(DoOwnerPop(s))
  {
    var q, th := s.q.(tail := Add32(s.q.tail, 1)), s.q.slots[Slot(s.q.tail)];
    TakeFromRing(s.q.slots, s.q.tail, Sub32(s.q.head, s.q.tail), s.q.overflow);
    assert Logical(s) == [th] + QueueFrom(q, q.tail);
    CounterPop(s.qHead, s.qTail, |Logical(s)|, 1);
  }

  lemma OwnerPushHeadInv(s: State, th: Uthread)
    requires Inv(s) && Enabled(s, OwnerPushHead(th))
    ensures Logical(DoOwnerPushHead(s, th)) == [th] + Logical(s)
    ensures Inv(DoOwnerPushHead(s, th))
  {
    var n, t := Sub32(s.q.head, s.q.tail), Sub32(s.q.tail, 1);
    HeadPushStep(s.q.slots, s.q.tail, n, s.q.overflow, th);
    assert Sub32(s.q.head, t) == n + 1 && Sub32(Sub32(s.q.head, 1), t) == n;
    assert Logical(DoOwnerPushHead(s, th)) == [th] + Logical(s);
  }

  lemma OwnerPushLockedInv(s: State, th: Uthread)
    requires Inv(s) && Enabled(s, OwnerPushLocked(th))
    ensures Logical(DoPushLocked(s, th)) == Logical(s) + [th]
    ensures Inv(DoPushLocked(s, th))
  {
    AppendedIs(Drained(s.q), th);
    CounterPush(s.qHead, s.qTail, |Logical(s)|, 1);
  }

  /** Resetting the ring and filling it with the merged threads is one insertion of all the stolen ones. */
  lemma OwnerMergeInv(s: State, stolen: seq<Uthread>)
    requires Inv(s) && Enabled(s, OwnerMerge(stolen))
    ensures Logical(DoMerge(s, stolen)) == Merge(Logical(s), stolen)
    ensures Inv(DoMerge(s, stolen))
  {
    var empty := Queue(s.q.slots, 0, 0, []);
    assert QueueFrom(empty, 0) == [];
    var all := Merge(Logical(s), stolen);
    assert [] + all == all;
    MergeInterleaves(Logical(s), stolen);
    InterleavesConserves(all, Logical(s), stolen);
    CounterPush(s.qHead, s.qTail, |Logical(s)|, |stolen|);
  }

  /** A lock taken for no more than the exported length is covered by real threads. */
  lemma LockInv(s: State, want: U32)
    requires Inv(s) && Enabled(s, Lock(want))
    ensures Logical(Apply(s, Lock(want))) == Logical(s)
    ensures Inv(Apply(s, Lock(want)))
  {
    WrapAtMost(|Logical(s)| - Pending(s));
  }

  lemma SnapshotInv(s: State)
    requires Inv(s) && Enabled(s, Snapshot)
    ensures Logical(Apply(s, Snapshot)) == Logical(s)
    ensures Inv(Apply(s, Snapshot))
  {
  }

  lemma TakeRingInv(s: State)
    requires Inv(s) && Enabled(s, TakeRing)
    ensures Logical(s) == [s.q.slots[Slot(s.thief.tail)]] + Logical(DoTakeRing(s))
    ensures Inv(DoTakeRing(s))
  {
    var th := s.q.slots[Slot(s.thief.tail)];
    WindowStep(s.q.head, s.thief.tail);
    WindowStep(s.thief.snap, s.thief.tail);
    TakeFromRing(s.q.slots, s.thief.tail, Sub32(s.q.head, s.thief.tail), s.q.overflow);
    assert Logical(s) == [th] + Logical(DoTakeRing(s));
  }

  lemma TakeOverflowInv(s: State)
    requires Inv(s) && Enabled(s, TakeOverflow)
    ensures Logical(s) == [s.q.overflow[0]] + Logical(DoTakeOverflow(s))
    ensures Inv(DoTakeOverflow(s))
  {
    assert s.thief.tail == s.q.head;
    TakeFromOverflow(s.q.slots, s.thief.tail, s.q.overflow);
    assert Logical(s) == [s.q.overflow[0]] + Logical(DoTakeOverflow(s));
  }

  lemma PublishInv(s: State)
    requires Inv(s) && Enabled(s, Publish)
    ensures Logical(DoPublish(s)) == Logical(s)
    ensures Inv(DoPublish(s))
  {
    WrapSmall(|s.thief.taken|);
    CounterPop(s.qHead, s.qTail, |Logical(s)| + |Taken(s)| - Pending(s), |s.thief.taken|);
  }

  /** The deque operation each step of the two sides performs, if any. */
  ghost predicate Performs(s: State, step: Step, d: Deque, d': Deque) {
    match step
    case PublishHead => s.owner.Wrote? && PushBack(d, d', s.owner.th)
    case SlowInsert => s.owner.Slow? && PushBack(d, d', s.owner.th)
    case OwnerPushHead(th) => PushFront(d, d', th)
    case OwnerPushLocked(th) => PushBack(d, d', th)
    case OwnerMerge(stolen) => MergeIn(d, d', stolen)
    case OwnerPop => |s.q.slots| == RQ_SIZE && PopFront(d, d', s.q.slots[Slot(s.q.tail)])
    case TakeRing => s.thief.Draining? && |s.q.slots| == RQ_SIZE && PopFront(d, d', s.q.slots[Slot(s.thief.tail)])
    case TakeOverflow => s.q.overflow != [] && PopFront(d, d', s.q.overflow[0])
    case _ => d' == d
  }

  lemma PerformsDequeStep(s: State, step: Step, d: Deque, d': Deque)
    requires Performs(s, step, d, d')
    ensures DequeNext(d, d')
  {
    match step
    case PublishHead => assert PushBack(d, d', s.owner.th);
    case SlowInsert => assert PushBack(d, d', s.owner.th);
    case OwnerPushHead(th) => assert PushFront(d, d', th);
    case OwnerPushLocked(th) => assert PushBack(d, d', th);
    case OwnerMerge(stolen) => assert MergeIn(d, d', stolen);
    case OwnerPop => assert PopFront(d, d', s.q.slots[Slot(s.q.tail)]);
    case TakeRing => assert PopFront(d, d', s.q.slots[Slot(s.thief.tail)]);
    case TakeOverflow => assert PopFront(d, d', s.q.overflow[0]);
    case _ =>
  }

  predicate ThiefStep(step: Step) {
    step.Lock? || step.Snapshot? || step.TakeRing? || step.TakeOverflow? || step.Publish?
  }

  lemma ThiefStepRefines(s: State, step: Step)
    requires Inv(s) && Enabled(s, step) && ThiefStep(step)
    ensures Inv(Apply(s, step))
    ensures Performs(s, step, Abs(s), Abs(Apply(s, step)))
  {
    match step
    case Lock(want) => LockInv(s, want);
    case Snapshot => SnapshotInv(s);
    case TakeRing => TakeRingInv(s);
    case TakeOverflow => TakeOverflowInv(s);
    case Publish => PublishInv(s);
  }

  predicate LockedOwnerStep(step: Step) {
    step.SlowInsert? || step.OwnerPop? || step.OwnerPushHead? || step.OwnerPushLocked? || step.OwnerMerge?
  }

  lemma LockedOwnerRefines(s: State, step: Step)
    requires Inv(s) && Enabled(s, step) && LockedOwnerStep(step)
    ensures Inv(Apply(s, step))
    ensures Performs(s, step, Abs(s), Abs(Apply(s, step)))
  {
    match step
    case SlowInsert => SlowInsertInv(s);
    case OwnerPop => OwnerPopInv(s);
    case OwnerPushHead(th) => OwnerPushHeadInv(s, th);
    case OwnerPushLocked(th) => OwnerPushLockedInv(s, th);
    case OwnerMerge(stolen) => OwnerMergeInv(s, stolen);
  }

  lemma OwnerLoadsInv(s: State, step: Step)
    requires Inv(s) && Enabled(s, step) && (step.LoadTail? || step.Check?)
    ensures Inv(Apply(s, step)) && Logical(Apply(s, step)) == Logical(s)
  {
  }

  lemma LockFreeOwnerRefines(s: State, step: Step)
    requires Inv(s) && Enabled(s, step) && !ThiefStep(step) && !LockedOwnerStep(step)
    ensures Inv(Apply(s, step))
    ensures Performs(s, step, Abs(s), Abs(Apply(s, step)))
  {
    match step
    case LoadTail(_) => OwnerLoadsInv(s, step);
    case Check => OwnerLoadsInv(s, step);
    case WriteSlot => WriteSlotInv(s);
    case PublishHead => PublishHeadInv(s);
    case Export => ExportInv(s);
  }

  /** Every step of either side keeps the invariant and is one atomic deque operation or invisible. */
  lemma StepRefinesDeque(s: State, step: Step)
    requires Inv(s) && Enabled(s, step)
    ensures Inv(Apply(s, step))
    ensures Performs(s, step, Abs(s), Abs(Apply(s, step)))
    ensures DequeNext(Abs(s), Abs(Apply(s, step)))
  {
    if ThiefStep(step) {
      ThiefStepRefines(s, step);
    } else if LockedOwnerStep(step) {
      LockedOwnerRefines(s, step);
    } else {
      LockFreeOwnerRefines(s, step);
    }
    PerformsDequeStep(s, step, Abs(s), Abs(Apply(s, step)));
  }

  // ---------------------------------------------------------------- whole runs

  ghost predicate IsRun(run: seq<State>) {
    && run != [] && Init(run[0])
    && forall i :: 0 <= i < |run| - 1 ==> Next(run[i], run[i + 1])
  }

  lemma {:induction false} RunsSatisfyInv(run: seq<State>, k: nat)
    requires IsRun(run) && k < |run|
    ensures Inv(run[k]) && Conserved(Abs(run[k]))
  {
    if k == 0 {
      assert Logical(run[0]) == [];
    } else {
      RunsSatisfyInv(run, k - 1);
      var step :| NextBy(run[k - 1], step, run[k]);
      StepRefinesDeque(run[k - 1], step);
      DequeConserves(Abs(run[k - 1]), Abs(run[k]));
    }
  }

  /**
   In every interleaving, the owner being a thief itself included: no thread is lost, duplicated or
   overwritten; without head pushes and merges threads leave in the order they were pushed; and a thief that asks
   for no more than the exported length gets exactly what it asked for.
   */
  lemma NoThreadLost(run: seq<State>, k: nat)
    requires IsRun(run) && k < |run|
    ensures |run[k].q.slots| == RQ_SIZE
    ensures multiset(run[k].entered) == multiset(run[k].left) + multiset(Logical(run[k]))
    ensures !run[k].reordered ==> run[k].entered == run[k].left + Logical(run[k])
    ensures Enabled(run[k], Publish) ==> |run[k].thief.taken| == run[k].thief.want
    ensures run[k].owner.GotTail? ==> Sub32(run[k].q.head, run[k].owner.tail) <= RQ_SIZE
  {
    RunsSatisfyInv(run, k);
  }
}
