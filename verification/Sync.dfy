/**
 Blocking primitives that hand over under a lock: the read-write mutex, the counting
 semaphore and the barrier. Each method is one critical section; a caller that has to
 wait is parked on a list and later woken with the lock already its own.
 */
module Sync {
  import opened Wrappers

  type Thread = nat

  /** rwmutex_t, together with who holds it. */
  class RwMutex {
    var count: int
    var readWaiters: seq<Thread>
    var writeWaiters: seq<Thread>
    var readWaiterCount: int
    ghost var readers: multiset<Thread>
    ghost var writer: Option<Thread>

    /** A writer excludes everybody; count says who is inside; nobody waits for a free lock. */
    ghost predicate Valid()
      reads this
    {
      && count == (if writer.Some? then -1 else |readers|)
      && (writer.Some? ==> readers == multiset{})
      && readWaiterCount == |readWaiters|
      && (count == 0 ==> readWaiters == [] && writeWaiters == [])
      && (readWaiters != [] ==> writer.Some?)
    }

    constructor ()
      ensures Valid() && readers == multiset{} && writer == None && readWaiters == [] && writeWaiters == []
    {
      count, readWaiters, writeWaiters, readWaiterCount := 0, [], [], 0;
      readers, writer := multiset{}, None;
    }

    /** rwmutex_rdlock: in at once unless a writer is inside. */
    method RdLock(t: Thread) returns (acquired: bool)
      requires Valid()
      modifies this
      ensures Valid() && writer == old(writer) && writeWaiters == old(writeWaiters)
      ensures acquired <==> writer.None?
      ensures readers == if acquired then old(readers) + multiset{t} else old(readers)
      ensures readWaiters == if acquired then old(readWaiters) else old(readWaiters) + [t]
    {
      if count >= 0 {
        count := count + 1;
        readers := readers + multiset{t};
        return true;
      }
      readWaiterCount := readWaiterCount + 1;
      readWaiters := readWaiters + [t];
      return false;
    }

    /** rwmutex_try_rdlock. */
    method TryRdLock(t: Thread) returns (acquired: bool)
      requires Valid()
      modifies this`count, this`readers
      ensures Valid() && (acquired <==> writer.None?)
      ensures readers == if acquired then old(readers) + multiset{t} else old(readers)
    {
      if count >= 0 {
        count := count + 1;
        readers := readers + multiset{t};
        return true;
      }
      return false;
    }

    /** rwmutex_wrlock: in at once only if nobody is inside. */
    method WrLock(t: Thread) returns (acquired: bool)
      requires Valid()
      modifies this
      ensures Valid() && readers == old(readers) && readWaiters == old(readWaiters)
      ensures acquired <==> old(writer).None? && readers == multiset{}
      ensures writer == if acquired then Some(t) else old(writer)
      ensures writeWaiters == if acquired then old(writeWaiters) else old(writeWaiters) + [t]
    {
      if count == 0 {
        count := -1;
        writer := Some(t);
        return true;
      }
      writeWaiters := writeWaiters + [t];
      return false;
    }

    /** rwmutex_try_wrlock. */
    method TryWrLock(t: Thread) returns (acquired: bool)
      requires Valid()
      modifies this`count, this`writer
      ensures Valid() && (acquired <==> old(writer).None? && readers == multiset{})
      ensures writer == if acquired then Some(t) else old(writer)
    {
      if count == 0 {
        count := -1;
        writer := Some(t);
        return true;
      }
      return false;
    }

    /**
     rwmutex_unlock by a thread that is inside. The last one out lets in every waiting reader, or
     else the writer that waited longest; nobody else is woken and nobody is forgotten.
     */
    method Unlock(t: Thread) returns (woken: seq<Thread>)
      requires Valid() && (writer == Some(t) || (writer.None? && t in readers))
      modifies this
      ensures Valid()
      ensures var left := if old(writer).Some? then multiset{} else old(readers) - multiset{t};
              if left != multiset{} then
                woken == [] && readers == left && writer == None
                && readWaiters == old(readWaiters) && writeWaiters == old(writeWaiters)
              else if old(readWaiters) != [] then
                woken == old(readWaiters) && readers == multiset(woken) && writer == None
                && readWaiters == [] && writeWaiters == old(writeWaiters)
              else if old(writeWaiters) != [] then
                woken == [old(writeWaiters[0])] && writer == Some(woken[0]) && readers == multiset{}
                && readWaiters == [] && writeWaiters == old(writeWaiters)[1..]
              else
                woken == [] && writer == None && readers == multiset{} && readWaiters == [] && writeWaiters == []
    {
      woken := [];
      if count < 0 {
        count := 0;
        writer := None;
      } else {
        count := count - 1;
        readers := readers - multiset{t};
      }
      if count == 0 && readWaiterCount > 0 {
        count := readWaiterCount;
        readWaiterCount := 0;
        var tmp := readWaiters;
        readWaiters := [];
        readers := multiset(tmp);
        woken := WakeAll(tmp);
        return;
      }
      if count == 0 && writeWaiters != [] {
        woken := [writeWaiters[0]];
        writer := Some(writeWaiters[0]);
        writeWaiters := writeWaiters[1..];
        count := -1;
      }
    }
  }

  /** The wake-up loop over a detached list: every thread once, in order. */
  method WakeAll(list: seq<Thread>) returns (woken: seq<Thread>)
    ensures woken == list
  {
    woken := [];
    var tmp := list;
    while tmp != []
      invariant woken + tmp == list
      decreases |tmp|
    {
      woken := woken + [tmp[0]];
      tmp := tmp[1..];
    }
  }

  /** semaphore_t, with the history of posts and of threads let through. */
  class Semaphore {
    var count: int
    var waiters: seq<Thread>
    ghost var initial: nat
    ghost var posts: nat
    ghost var grants: nat

    ghost predicate Valid()
      reads this
    {
      && count >= 0
      && initial + posts == count + grants
      && (waiters != [] ==> count == 0)
    }

    constructor (n: nat)
      requires n > 0
      ensures Valid() && initial == n && posts == 0 && grants == 0 && waiters == []
    {
      count, waiters, initial, posts, grants := n, [], n, 0, 0;
    }

    /** semaphore_wait. */
    method Wait(t: Thread) returns (acquired: bool)
      requires Valid()
      modifies this
      ensures Valid() && initial == old(initial) && posts == old(posts)
      ensures acquired <==> old(count) > 0
      ensures grants == old(grants) + (if acquired then 1 else 0)
      ensures waiters == if acquired then old(waiters) else old(waiters) + [t]
    {
      if count > 0 {
        count := count - 1;
        grants := grants + 1;
        return true;
      }
      waiters := waiters + [t];
      return false;
    }

    /** semaphore_try_wait. */
    method TryWait() returns (acquired: bool)
      requires Valid()
      modifies this`count, this`grants
      ensures Valid() && (acquired <==> old(count) > 0)
      ensures grants == old(grants) + (if acquired then 1 else 0)
    {
      acquired := false;
      if count > 0 {
        count := count - 1;
        grants := grants + 1;
        acquired := true;
      }
    }

    /** semaphore_post: the unit goes to the thread that waited longest, if any. */
    method Post() returns (woken: Option<Thread>)
      requires Valid()
      modifies this
      ensures Valid() && initial == old(initial) && posts == old(posts) + 1
      ensures if old(waiters) == [] then
                woken == None && waiters == [] && count == old(count) + 1 && grants == old(grants)
              else
                woken == Some(old(waiters[0])) && waiters == old(waiters)[1..] && count == 0
                && grants == old(grants) + 1
    {
      posts := posts + 1;
      if waiters != [] {
        woken := Some(waiters[0]);
        waiters := waiters[1..];
        grants := grants + 1;
      } else {
        count := count + 1;
        woken := None;
      }
    }
  }

  /** barrier_t, with the number of threads that have passed it and the rounds completed. */
  class Barrier {
    const size: nat
    var waiting: int
    var waiters: seq<Thread>
    ghost var rounds: nat
    ghost var passed: nat

    ghost predicate Valid()
      reads this
    {
      && size >= 1
      && waiting == |waiters| < size
      && passed == Groups(rounds, size)
    }

    constructor (count: nat)
      requires count >= 1
      ensures Valid() && size == count && waiters == [] && rounds == 0
    {
      size, waiting, waiters, rounds, passed := count, 0, [], 0, 0;
    }

    /** barrier_wait: nobody passes until as many as the barrier counts are there, then all of them do. */
    method Wait(t: Thread) returns (releases: bool, woken: seq<Thread>)
      requires Valid()
      modifies this
      ensures Valid()
      ensures releases <==> |old(waiters)| + 1 == size
      ensures releases ==> woken == old(waiters) && waiters == [] && rounds == old(rounds) + 1
      ensures !releases ==> woken == [] && waiters == old(waiters) + [t] && rounds == old(rounds)
      ensures passed == old(passed) + (if releases then size else 0)
    {
      waiting := waiting + 1;
      if waiting >= size {
        var tmp := waiters;
        waiters := [];
        waiting := 0;
        rounds := rounds + 1;
        passed := passed + |tmp| + 1;
        woken := WakeAll(tmp);
        return true, woken;
      }
      waiters := waiters + [t];
      return false, [];
    }
  }

  /** So many groups of so many threads. */
  ghost function Groups(rounds: nat, size: nat): nat {
    if rounds == 0 then 0 else Groups(rounds - 1, size) + size
  }

  /** The threads that have passed are whole rounds of the barrier's size. */
  lemma {:induction false} GroupsIsProduct(rounds: nat, size: nat)
    ensures Groups(rounds, size) == rounds * size
  {
    if rounds > 0 {
      GroupsIsProduct(rounds - 1, size);
    }
  }
}
