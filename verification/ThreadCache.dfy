/**
 The thread-local item cache as the code runs it. Every method is what one thread does without
 interruption: tcache_alloc and tcache_free, and the three stages of tcache_reclaim, of which only
 the first holds the lock.
 */
module ThreadCaches {
  import opened Wrappers
  import opened Tcache

  class ThreadCache {
    const magSize: nat
    var c: Cache
    ghost var v: View
    ghost var nextId: MagId      // the number of the next new magazine
    ghost var nextPool: PoolId   // the number of the next new list

    ghost predicate Valid()
      reads this
    {
      && Inv(c, v, magSize)
      && Numbered(v, nextId, nextPool)
    }

    constructor (magSize: nat, threads: set<Thread>)
      requires 1 <= magSize <= MAX_MAG_SIZE
      ensures Valid() && v.place == map[] && v.threads.Keys == threads && this.magSize == magSize
    {
      this.magSize := magSize;
      c := Cache(map[], Links(map[], 0, map[]), map t | t in threads :: Ltc(0, 0, 0), 0);
      v := View(Racks(map[], map[]), map t | t in threads :: Pair(None, None), Pools(map[0 := []], 0, map[]), map[]);
      nextId, nextPool := 0, 1;
    }

    /** The cache takes on a consistent state. */
    method Install(c': Cache, ghost v': View, ghost nextId': MagId, ghost nextPool': PoolId)
      requires Inv(c', v', magSize) && Numbered(v', nextId', nextPool')
      modifies this
      ensures Valid() && c == c' && v == v' && nextId == nextId' && nextPool == nextPool'
    {
      c, v, nextId, nextPool := c', v', nextId', nextPool';
    }

    /** The first part of __tcache_alloc: refill the loaded magazine; supply is what the backing store answers. */
    method Refill(t: Thread, supply: Option<seq<Ptr>>) returns (ok: bool)
      requires Valid() && t in v.threads && c.threads[t].rounds == 0
      requires supply.Some? ==> |supply.value| == magSize && FromStore(supply.value, v.place)
      modifies this
      ensures Valid() && v.threads.Keys == old(v.threads.Keys)
      ensures ok ==> v.threads[t].loaded.Some?
      ensures !ok ==> supply.None? && c == old(c) && v == old(v)
      ensures Grown(old(v.place), v.place)
    {
      SlowPathAsserts(c, v, magSize, t);
      assert c.threads[t].loaded == 0;
      if c.threads[t].previous != 0 {
        LoadPrevious(t);
        return true;
      }
      if c.links.sharedMags != 0 {
        LoadShared(t);
        return true;
      }
      if supply.None? {
        return false;
      }
      AddFresh(t, supply.value);
      return true;
    }

    /** Case 1 of __tcache_alloc. */
    method LoadPrevious(t: Thread)
      requires Valid() && t in v.threads && v.threads[t].loaded.None? && v.threads[t].previous.Some?
      modifies this
      ensures Valid() && v.threads.Keys == old(v.threads.Keys) && v.threads[t].loaded.Some? && v.place == old(v.place)
    {
      LoadPreviousInv(c, v, magSize, t);
      Install(LoadPreviousC(c, t, magSize), LoadPreviousV(v, t), nextId, nextPool);
    }

    /** Case 2 of __tcache_alloc. */
    method LoadShared(t: Thread)
      requires Valid() && t in v.threads && v.threads[t].loaded.None? && Shared(v) != []
      modifies this
      ensures Valid() && v.threads.Keys == old(v.threads.Keys) && v.threads[t].loaded.Some? && v.place == old(v.place)
    {
      ghost var v' := LoadedShared(c, v, magSize, t, nextId, nextPool);
      Install(LoadSharedC(c, t, magSize), v', nextId, nextPool);
    }

    /** tcache_alloc_mag, given the items. */
    method AddFresh(t: Thread, items: seq<Ptr>)
      requires Valid() && t in v.threads && v.threads[t].loaded.None?
      requires |items| == magSize && FromStore(items, v.place)
      modifies this
      ensures Valid() && v.threads.Keys == old(v.threads.Keys) && v.threads[t].loaded.Some?
      ensures c.magsAllocated == old(c.magsAllocated) + 1
      ensures Grown(old(v.place), v.place)
    {
      var c', v' := FreshMag(t, items);
      Install(c', v', nextId + 1, nextPool);
    }

    /** The state with a new loaded magazine made of these items. */
    method FreshMag(t: Thread, items: seq<Ptr>) returns (c': Cache, ghost v': View)
      requires Valid() && t in v.threads && v.threads[t].loaded.None?
      requires |items| == magSize && FromStore(items, v.place)
      ensures Inv(c', v', magSize) && Numbered(v', nextId + 1, nextPool)
      ensures v'.threads.Keys == v.threads.Keys && v'.threads[t].loaded.Some? && Grown(v.place, v'.place)
      ensures c'.magsAllocated == c.magsAllocated + 1
    {
      var nextItem := LinkMag(items, c.nextItem);
      c' := NewMagC(c, t, items, nextItem);
      v' := NewMag(c, c', v, magSize, t, items, nextItem, nextId, nextPool);
    }

    /** tcache_alloc: a non-null item goes from a magazine to the client; null only if the backing store failed. */
    method Alloc(t: Thread, supply: Option<seq<Ptr>>) returns (item: Ptr)
      requires Valid() && t in v.threads
      requires supply.Some? ==> |supply.value| == magSize && FromStore(supply.value, v.place)
      modifies this
      ensures Valid() && v.threads.Keys == old(v.threads.Keys)
      ensures item == 0 ==> supply.None? && v == old(v) && c == old(c)
      ensures item != 0 ==> HandedOut(old(v.place), v.place, item)
    {
      if c.threads[t].rounds == 0 {
        var ok := Refill(t, supply);
        if !ok {
          return 0;
        }
      }
      SlowPathAsserts(c, v, magSize, t);
      ghost var grown := v.place;
      item := Take(t);
      TakenIsHandedOut(old(v.place), grown, item);
    }

    /** The fast path of tcache_alloc. */
    method Take(t: Thread) returns (item: Ptr)
      requires Valid() && t in v.threads && v.threads[t].loaded.Some?
      modifies this
      ensures Valid() && v.threads.Keys == old(v.threads.Keys)
      ensures item != 0 && item in old(v.place) && old(v.place)[item].InMag? && v.place == old(v.place)[item := Client]
    {
      ghost var v' := Taken(c, v, magSize, t, nextId, nextPool);
      item := c.threads[t].loaded;
      Install(PopC(c, t), v', nextId, nextPool);
    }

    /** The full magazine makes room in __tcache_free: it is put aside, and what was there before goes to the pool. */
    method MakeRoom(t: Thread)
      requires Valid() && t in v.threads && c.threads[t].rounds == magSize
      modifies this
      ensures Valid() && v.threads.Keys == old(v.threads.Keys) && v.place == old(v.place) && c.threads[t].rounds == 0
      ensures v.r.mags == old(v.r.mags)
    {
      SlowPathAsserts(c, v, magSize, t);
      assert c.threads[t].loaded != 0;
      if c.threads[t].previous != 0 {
        Share(t);
      }
      PutAside(t);
    }

    /** Case 1 of __tcache_free. */
    method PutAside(t: Thread)
      requires Valid() && t in v.threads && v.threads[t].previous.None? && c.threads[t].rounds == magSize
      modifies this
      ensures Valid() && v.threads.Keys == old(v.threads.Keys) && v.place == old(v.place) && c.threads[t].rounds == 0
      ensures v.r.mags == old(v.r.mags)
    {
      PutAsideInv(c, v, magSize, t);
      Install(PutAsideC(c, t), PutAsideV(v, t), nextId, nextPool);
    }

    /** Case 2 of __tcache_free. */
    method Share(t: Thread)
      requires Valid() && t in v.threads && v.threads[t].previous.Some?
      modifies this
      ensures Valid() && v.threads == old(v.threads)[t := old(v.threads[t]).(previous := None)]
      ensures v.place == old(v.place) && v.r.mags == old(v.r.mags) && c.threads[t].rounds == old(c.threads[t].rounds)
    {
      ghost var v' := SharedOut(c, v, magSize, t, nextId, nextPool);
      Install(ShareC(c, t), v', nextId, nextPool);
    }

    /** tcache_free: the client's item goes to the loaded magazine. */
    method Free(t: Thread, x: Ptr)
      requires Valid() && t in v.threads && x in v.place && v.place[x] == Client
      modifies this
      ensures Valid() && v.threads.Keys == old(v.threads.Keys)
      ensures x in v.place && v.place[x].InMag? && v.place == old(v.place)[x := v.place[x]]
    {
      if c.threads[t].rounds >= magSize {
        RoundsBounded(t);
        MakeRoom(t);
      }
      Give(t, x);
    }

    lemma RoundsBounded(t: Thread)
      requires Valid() && t in v.threads
      ensures c.threads[t].rounds <= magSize
    {
      assert ThreadOk(v.r, t, v.threads[t], c.threads[t], magSize);
    }

    /** The fast path of tcache_free, and the end of the slow one. */
    method Give(t: Thread, x: Ptr)
      requires Valid() && t in v.threads && x in v.place && v.place[x] == Client && c.threads[t].rounds < magSize
      modifies this
      ensures Valid() && v.threads.Keys == old(v.threads.Keys)
      ensures x in v.place && v.place[x].InMag? && v.place == old(v.place)[x := v.place[x]]
    {
      ghost var v' := Given(c, v, magSize, t, x, nextId, nextPool);
      Install(PushC(c, t, x), v', nextId + 1, nextPool);
    }

    /** tcache_reclaim takes the pool for itself, under the lock. From here on the call works without it. */
    method ReclaimBegin(call: Call)
      requires Valid() && call !in c.links.hdrs
      modifies this
      ensures Valid() && Shared(v) == [] && v.place == old(v.place) && v.threads == old(v.threads) && v.r == old(v.r)
      ensures c.magsAllocated == old(c.magsAllocated) && c.links.hdrs.Keys == old(c.links.hdrs.Keys) + {call}
      ensures v.pools.detached == old(v.pools.detached)[call := old(v.pools.shared)]
      ensures v.pools.detached[call] in v.pools.lists && v.pools.lists[v.pools.detached[call]] == old(Shared(v))
    {
      DetachInv(c, v, magSize, call, nextPool);
      Install(DetachC(c, call), DetachV(v, call, nextPool), nextId, nextPool + 1);
    }

    /**
     One round of tcache_reclaim, without the lock: other threads may have done anything since the last
     one. The magazine has exactly mag_size items, so the assert in tcache_free_mag holds.
     */
    method ReclaimOne(call: Call) returns (items: seq<Ptr>)
      requires Valid() && call in c.links.hdrs && c.links.hdrs[call] != 0
      modifies this
      ensures Valid() && c.magsAllocated == old(c.magsAllocated) - 1 && call in c.links.hdrs
      ensures Returned(old(v), v, old(v.pools.detached[call]), items, magSize)
    {
      ghost var pool := v.pools.detached[call];
      EmptyMeansNull(c, v, magSize, pool);
      FirstOf(c, v, magSize, pool);
      ghost var id := v.pools.lists[pool][0];
      items := WalkMag(c.links.hdrs[call], c.nextItem, v.r.mags[id], id, v.place);
      ghost var v' := Dropped(c, v, magSize, call, nextId, nextPool);
      Install(DropC(c, call), v', nextId, nextPool);
    }

    /** The end of tcache_reclaim. */
    method ReclaimEnd(call: Call)
      requires Valid() && call in c.links.hdrs && c.links.hdrs[call] == 0
      modifies this
      ensures Valid() && v == old(v).(pools := old(v.pools).(detached := old(v.pools.detached) - {call}))
      ensures c.magsAllocated == old(c.magsAllocated)
    {
      DoneInv(c, v, magSize, call);
      Install(DoneC(c, call), DoneV(v, call), nextId, nextPool);
    }

    /** The loop of tcache_reclaim, undisturbed: the whole list returns, magazine by magazine. */
    method ReclaimLoop(call: Call) returns (returned: seq<seq<Ptr>>)
      requires Valid() && call in c.links.hdrs
      modifies this
      ensures Valid() && call in c.links.hdrs && c.links.hdrs[call] == 0
      ensures c.magsAllocated == old(c.magsAllocated) - |returned|
      ensures Reclaimed(old(v), v, old(v.pools.detached[call]), returned, magSize)
      ensures |returned| == |old(v.pools.lists[v.pools.detached[call]])|
    {
      returned := [];
      ghost var pool := v.pools.detached[call];
      ReclaimNone(v, pool, magSize);
      while c.links.hdrs[call] != 0
        invariant Valid() && call in c.links.hdrs && v.pools.detached[call] == pool
        invariant Reclaimed(old(v), v, pool, returned, magSize) && c.magsAllocated == old(c.magsAllocated) - |returned|
        decreases |v.pools.lists[pool]|
      {
        ghost var before := v;
        var items := ReclaimOne(call);
        ReclaimOneMore(old(v), before, v, pool, returned, items, magSize);
        returned := returned + [items];
      }
      EmptyMeansNull(c, v, magSize, pool);
    }

    /** tcache_reclaim, when nobody interferes: the pool is emptied into the backing store, and nothing else moves. */
    method Reclaim(call: Call) returns (returned: seq<seq<Ptr>>)
      requires Valid() && call !in c.links.hdrs
      modifies this
      ensures Valid() && Shared(v) == [] && v.threads == old(v.threads) && |returned| == |old(Shared(v))|
      ensures c.magsAllocated == old(c.magsAllocated) - |returned|
      ensures forall k :: 0 <= k < |returned| ==>
                && old(Shared(v))[k] in old(v.r.mags) && |returned[k]| == magSize
                && returned[k] == old(v.r.mags)[old(Shared(v))[k]]
      ensures forall x :: x in v.place ==> x in old(v.place) && v.place[x] == old(v.place)[x]
      ensures forall x :: x in old(v.place) && x !in v.place ==>
                old(v.place)[x].InMag? && old(v.place)[x].mag in old(Shared(v))
    {
      ReclaimBegin(call);
      returned := ReclaimLoop(call);
      ReclaimEnd(call);
    }
  }
}
